/** The polyphase filter bank's FIR kernel, one work-item at a time, over the reals. */
module PfbFir {
  import opened DivMod

  const TAPS: nat := 4

  /** The element of the rotating buffer that holds input row `r`. */
  function Tap(r: nat): (t: nat)
    ensures t < TAPS
  {
    r % 4
  }

  lemma TapsDiffer(i: nat, r: nat)
    requires i <= r < i + (TAPS - 1)
    ensures Tap(r) != Tap(i + (TAPS - 1))
  {
  }

  /** `i` rows of `step` samples each. */
  function Row(step: nat, i: nat): nat {
    i * step
  }

  lemma RowStep(step: nat, i: nat)
    ensures Row(step, i + 1) == Row(step, i) + step
  {
  }

  lemma RowMono(step: nat, i: nat, j: nat)
    requires i <= j
    ensures Row(step, i) <= Row(step, j)
    ensures i < j ==> Row(step, i) + step <= Row(step, j)
  {
    MulMono(step, i, j);
    if i < j {
      MulMono(step, i + 1, j);
      RowStep(step, i);
    }
  }

  /** Row `r` of the column of samples that starts at `at`. */
  function Sample(input: seq<int>, step: nat, at: nat, r: nat): real {
    if at + Row(step, r) < |input| then input[at + Row(step, r)] as real else 0.0
  }

  /** The weight of tap `j` for position `pos`. */
  function Weight(weights: seq<real>, step: nat, pos: nat, j: nat): real {
    if Row(step, j) + pos < |weights| then weights[Row(step, j) + pos] else 0.0
  }

  /** The filter's definition: the first `k` taps of row `i`. */
  function Direct(input: seq<int>, weights: seq<real>, step: nat, pos: nat, at: nat, i: nat, k: nat): real {
    if k == 0 then 0.0
    else Direct(input, weights, step, pos, at, i, k - 1)
         + Weight(weights, step, pos, k - 1) * Sample(input, step, at, i + (k - 1))
  }

  /** Row `i` is computed: it is one of the work-item's, and inside the output. */
  predicate Reached(step: nat, rows: nat, offset: nat, n: int, i: nat) {
    i < rows && offset + Row(step, i) < n
  }

  /** Output element `k` is row `i`'s. */
  predicate WrittenBy(step: nat, rows: nat, outOffset: nat, offset: nat, n: int, k: nat, i: nat) {
    Reached(step, rows, offset, n, i) && k == outOffset + offset + Row(step, i)
  }

  /** The input covers the priming reads, and the one new sample of every row reached. */
  ghost predicate InputCovers(input: seq<int>, step: nat, rows: nat, inOffset: nat, offset: nat, n: int) {
    && inOffset + offset + Row(step, TAPS - 2) < |input|
    && forall i: nat :: Reached(step, rows, offset, n, i) ==> SampleInside(input, step, inOffset + offset, i)
  }

  ghost predicate SampleInside(input: seq<int>, step: nat, at: nat, i: nat) {
    at + (Row(step, TAPS - 1) + Row(step, i)) < |input|
  }

  /** The output has room for every row reached. */
  ghost predicate OutputCovers(length: nat, step: nat, rows: nat, outOffset: nat, offset: nat, n: int) {
    forall i: nat :: Reached(step, rows, offset, n, i) ==> outOffset + offset + Row(step, i) < length
  }

  /** Arrays of the sizes the kernel's own comments give are always large enough. */
  lemma WholeArraysCover(input: seq<int>, length: nat, step: nat, rows: nat, inOffset: nat, outOffset: nat,
                         offset: nat, n: int)
    requires inOffset + offset + Row(step, TAPS - 2) < |input|
    requires inOffset + n + Row(step, TAPS - 1) <= |input| && outOffset + n <= length
    ensures InputCovers(input, step, rows, inOffset, offset, n)
    ensures OutputCovers(length, step, rows, outOffset, offset, n)
  {
  }

  lemma RowsDiffer(step: nat, outBase: nat, i: nat)
    requires 1 <= step
    ensures forall r: nat :: r < i ==> outBase + Row(step, r) != outBase + Row(step, i)
  {
    forall r: nat | r < i
      ensures Row(step, r) < Row(step, i)
    {
      RowMono(step, r, i);
    }
  }

  lemma ReachedIsPrefix(step: nat, rows: nat, offset: nat, n: int, i: nat, r: nat)
    requires i <= r && Reached(step, rows, offset, n, r)
    ensures Reached(step, rows, offset, n, i)
  {
    RowMono(step, i, r);
  }

  /** The new sample of row `i` is input row `i + (TAPS - 1)`. */
  lemma NewSample(input: seq<int>, step: nat, at: nat, i: nat)
    requires SampleInside(input, step, at, i)
    ensures input[at + Row(step, TAPS - 1) + Row(step, i)] as real == Sample(input, step, at, i + (TAPS - 1))
  {
    RowsAdd(step, i, TAPS - 1);
  }

  lemma RowsAdd(step: nat, i: nat, j: nat)
    ensures Row(step, i + j) == Row(step, i) + Row(step, j)
  {
    Distribute(step, i, j);
  }

  /** Priming: all but the last tap of the buffer. */
  method Prime(input: seq<int>, step: nat, at: nat) returns (samples: array<real>, next: nat)
    requires at + Row(step, TAPS - 2) < |input|
    ensures fresh(samples) && samples.Length == TAPS && next == at + Row(step, TAPS - 1)
    ensures forall r: nat :: r < TAPS - 1 ==> samples[Tap(r)] == Sample(input, step, at, r)
  {
    samples, next := new real[TAPS](_ => 0.0), at;
    for i := 0 to TAPS - 1
      invariant next == at + Row(step, i)
      invariant forall r: nat :: r < i ==> samples[Tap(r)] == Sample(input, step, at, r)
    {
      RowMono(step, i, TAPS - 2);
      RowStep(step, i);
      samples[i] := input[next] as real;
      next := next + step;
    }
  }

  /** The weights of this branch of the filter bank. */
  method LoadWeights(weights: seq<real>, step: nat, pos: nat) returns (rweights: array<real>)
    requires Row(step, TAPS - 1) + pos < |weights|
    ensures fresh(rweights) && rweights.Length == TAPS
    ensures forall j: nat :: j < TAPS ==> rweights[j] == Weight(weights, step, pos, j)
  {
    rweights := new real[TAPS](_ => 0.0);
    for i := 0 to TAPS
      invariant forall j: nat :: j < i ==> rweights[j] == Weight(weights, step, pos, j)
    {
      RowMono(step, i, TAPS - 1);
      rweights[i] := weights[Row(step, i) + pos];
    }
  }

  /** The rotating buffer holds input rows `from` up to `to`. */
  ghost predicate Buffered(samples: seq<real>, input: seq<int>, step: nat, at: nat, from: nat, to: nat)
    requires |samples| == TAPS
  {
    forall r: nat :: from <= r < to ==> samples[Tap(r)] == Sample(input, step, at, r)
  }

  /** Overwriting the oldest sample with the next one. */
  lemma Rotate(was: seq<real>, samples: seq<real>, input: seq<int>, step: nat, at: nat, i: nat)
    requires |was| == TAPS && Buffered(was, input, step, at, i, i + (TAPS - 1))
    requires samples == was[Tap(i + (TAPS - 1)) := Sample(input, step, at, i + (TAPS - 1))]
    ensures Buffered(samples, input, step, at, i, i + TAPS)
  {
    forall r: nat | i <= r < i + TAPS
      ensures samples[Tap(r)] == Sample(input, step, at, r)
    {
      if r < i + (TAPS - 1) {
        TapsDiffer(i, r);
      }
    }
  }

  /** The inner loop: one output sum, the rotating buffer read from its oldest sample on. */
  method FilterRow(samples: array<real>, rweights: array<real>, i: nat,
                   ghost input: seq<int>, ghost weights: seq<real>, ghost step: nat, ghost pos: nat, ghost at: nat)
      returns (sum: real)
    requires samples.Length == TAPS == rweights.Length
    requires Buffered(samples[..], input, step, at, i, i + TAPS)
    requires forall j: nat :: j < TAPS ==> rweights[j] == Weight(weights, step, pos, j)
    ensures sum == Direct(input, weights, step, pos, at, i, TAPS)
  {
    sum := 0.0;
    for j := 0 to TAPS
      invariant sum == Direct(input, weights, step, pos, at, i, j)
    {
      assert samples[..][Tap(i + j)] == Sample(input, step, at, i + j);
      sum := sum + rweights[j] * samples[Tap(i + j)];
    }
  }

  /** Row `r` of the output is the filter's definition. */
  ghost predicate RowDone(out: seq<real>, input: seq<int>, weights: seq<real>, step: nat, pos: nat,
                          at: nat, outBase: nat, r: nat)
  {
    outBase + Row(step, r) < |out| && out[outBase + Row(step, r)] == Direct(input, weights, step, pos, at, r, TAPS)
  }

  ghost predicate RowsDone(out: seq<real>, input: seq<int>, weights: seq<real>, step: nat, pos: nat,
                           at: nat, outBase: nat, count: nat)
  {
    forall r: nat :: r < count ==> RowDone(out, input, weights, step, pos, at, outBase, r)
  }

  lemma OneMoreRow(was: seq<real>, out: seq<real>, input: seq<int>, weights: seq<real>, step: nat, pos: nat,
                   at: nat, outBase: nat, i: nat)
    requires 1 <= step && outBase + Row(step, i) < |was|
    requires RowsDone(was, input, weights, step, pos, at, outBase, i)
    requires out == was[outBase + Row(step, i) := Direct(input, weights, step, pos, at, i, TAPS)]
    ensures RowsDone(out, input, weights, step, pos, at, outBase, i + 1)
  {
    RowsDiffer(step, outBase, i);
    forall r: nat | r < i
      ensures RowDone(out, input, weights, step, pos, at, outBase, r)
    {
      assert RowDone(was, input, weights, step, pos, at, outBase, r);
    }
  }

  /** Only rows reached have been written. */
  ghost predicate OnlyRowsWritten(was: seq<real>, out: seq<real>, step: nat, rows: nat,
                                  outOffset: nat, offset: nat, n: int)
  {
    |out| == |was| && forall k: nat :: k < |out| && out[k] != was[k] ==>
      exists i: nat :: WrittenBy(step, rows, outOffset, offset, n, k, i)
  }

  lemma OneMoreWritten(first: seq<real>, was: seq<real>, out: seq<real>, step: nat, rows: nat, outOffset: nat,
                       offset: nat, n: int, k: nat, i: nat, v: real)
    requires OnlyRowsWritten(first, was, step, rows, outOffset, offset, n)
    requires WrittenBy(step, rows, outOffset, offset, n, k, i) && k < |was| && out == was[k := v]
    ensures OnlyRowsWritten(first, out, step, rows, outOffset, offset, n)
  {
  }

  /** One pass of the kernel's loop: the new sample over the oldest, and one output sum. */
  method NextRow(out: array<real>, samples: array<real>, rweights: array<real>, i: nat, next: nat, idx: nat,
                 outBase: nat, input: seq<int>,
                 ghost weights: seq<real>, ghost step: nat, ghost pos: nat, ghost at: nat)
    requires samples.Length == TAPS == rweights.Length && {out} !! {samples, rweights} && samples != rweights
    requires forall j: nat :: j < TAPS ==> rweights[j] == Weight(weights, step, pos, j)
    requires Buffered(samples[..], input, step, at, i, i + (TAPS - 1))
    requires next == at + Row(step, TAPS - 1) && idx == Row(step, i)
    requires SampleInside(input, step, at, i) && outBase + idx < out.Length
    modifies out, samples
    ensures out[..] == old(out[..])[outBase + idx := Direct(input, weights, step, pos, at, i, TAPS)]
    ensures Buffered(samples[..], input, step, at, i + 1, i + TAPS)
  {
    NewSample(input, step, at, i);
    ghost var was := samples[..];
    samples[Tap(i + TAPS - 1)] := input[next + idx] as real;
    Rotate(was, samples[..], input, step, at, i);
    var sum := FilterRow(samples, rweights, i, input, weights, step, pos, at);
    out[outBase + idx] := sum;
  }

  /** The four products of a row, written out. */
  lemma DirectIsSum(input: seq<int>, weights: seq<real>, step: nat, pos: nat, at: nat, i: nat)
    requires 3 * step + pos < |weights| && at + Row(step, i) + 3 * step < |input|
    ensures var s := at + Row(step, i);
      Direct(input, weights, step, pos, at, i, TAPS)
      == weights[pos] * input[s] as real + weights[step + pos] * input[s + step] as real
         + weights[2 * step + pos] * input[s + 2 * step] as real + weights[3 * step + pos] * input[s + 3 * step] as real
  {
    var w0, w1, w2, w3 := Row(step, 0), Row(step, 1), Row(step, 2), Row(step, 3);
    RowsAdd(step, i, 1);
    RowsAdd(step, i, 2);
    RowsAdd(step, i, 3);
    assert w0 == 0 && w1 == step && w2 == 2 * step && w3 == 3 * step;
    assert Direct(input, weights, step, pos, at, i, 1) == weights[pos] * Sample(input, step, at, i);
    assert Direct(input, weights, step, pos, at, i, 2)
        == Direct(input, weights, step, pos, at, i, 1) + weights[step + pos] * Sample(input, step, at, i + 1);
    assert Direct(input, weights, step, pos, at, i, 3)
        == Direct(input, weights, step, pos, at, i, 2) + weights[2 * step + pos] * Sample(input, step, at, i + 2);
  }

  /** Element `d` past a work-item's first one belongs to one of its rows, inside the output. */
  predicate InColumn(d: int, step: nat, rows: nat, first: nat, n: int)
    requires 1 <= step
  {
    0 <= d && d % step == 0 && d < rows * step && first + d < n
  }

  lemma RowOfElement(d: int, step: nat, rows: nat, first: nat, n: int) returns (i: nat)
    requires 1 <= step && InColumn(d, step, rows, first, n)
    ensures Reached(step, rows, first, n, i) && Row(step, i) == d
  {
    i := Rounds(d, step);
    CellOf(d, step);
    RoundsBelow(d, rows, step);
  }

  lemma ElementOfRow(i: nat, step: nat, rows: nat, first: nat, n: int)
    requires 1 <= step && Reached(step, rows, first, n, i)
    ensures InColumn(Row(step, i), step, rows, first, n)
  {
    CellParts(i, step, 0);
    RowMono(step, i, rows);
  }

  /** Element `k` of the output is the weighted sum of the four samples from `s` on. */
  ghost predicate Weighted(out: seq<real>, input: seq<int>, weights: seq<real>, step: nat, pos: nat, s: int, k: nat)
    requires k < |out| && 3 * step + pos < |weights|
  {
    && 0 <= s && s + 3 * step < |input|
    && out[k] == weights[pos] * input[s] as real + weights[step + pos] * input[s + step] as real
       + weights[2 * step + pos] * input[s + 2 * step] as real
       + weights[3 * step + pos] * input[s + 3 * step] as real
  }

  lemma ElementDone(out: seq<real>, input: seq<int>, weights: seq<real>, n: int, step: nat, rows: nat,
                    inOffset: nat, outOffset: nat, first: nat, pos: nat, k: nat)
    requires 1 <= step && 3 * step + pos < |weights| && k < |out|
    requires InputCovers(input, step, rows, inOffset, first, n)
    requires forall i: nat :: Reached(step, rows, first, n, i) ==>
      RowDone(out, input, weights, step, pos, inOffset + first, outOffset + first, i)
    requires InColumn(k - (outOffset + first), step, rows, first, n)
    ensures Weighted(out, input, weights, step, pos, inOffset + first + (k - (outOffset + first)), k)
  {
    var i := RowOfElement(k - (outOffset + first), step, rows, first, n);
    assert SampleInside(input, step, inOffset + first, i);
    assert RowDone(out, input, weights, step, pos, inOffset + first, outOffset + first, i);
    DirectIsSum(input, weights, step, pos, inOffset + first, i);
  }

  /** An element that changed is one of the column's. */
  lemma ChangedInColumn(was: seq<real>, out: seq<real>, n: int, step: nat, rows: nat, outOffset: nat, first: nat,
                        k: nat)
    requires 1 <= step && OnlyRowsWritten(was, out, step, rows, outOffset, first, n) && k < |out| && out[k] != was[k]
    ensures InColumn(k - (outOffset + first), step, rows, first, n)
  {
    var i: nat :| WrittenBy(step, rows, outOffset, first, n, k, i);
    ElementOfRow(i, step, rows, first, n);
  }

  ghost predicate ElementOk(was: seq<real>, out: seq<real>, input: seq<int>, weights: seq<real>, n: int,
                            step: nat, rows: nat, inOffset: nat, outOffset: nat, first: nat, pos: nat, k: nat)
    requires 1 <= step && 3 * step + pos < |weights| && k < |out| == |was|
  {
    var d := k - (outOffset + first);
    if InColumn(d, step, rows, first, n)
    then Weighted(out, input, weights, step, pos, inOffset + first + d, k)
    else out[k] == was[k]
  }

  /** The whole output, element by element. */
  lemma ColumnDone(was: seq<real>, out: seq<real>, input: seq<int>, weights: seq<real>, n: int, step: nat, rows: nat,
                   inOffset: nat, outOffset: nat, first: nat, pos: nat)
    requires 1 <= step && 3 * step + pos < |weights|
    requires InputCovers(input, step, rows, inOffset, first, n)
    requires forall i: nat :: Reached(step, rows, first, n, i) ==>
      RowDone(out, input, weights, step, pos, inOffset + first, outOffset + first, i)
    requires OnlyRowsWritten(was, out, step, rows, outOffset, first, n)
    ensures forall k: nat :: k < |out| ==>
      ElementOk(was, out, input, weights, n, step, rows, inOffset, outOffset, first, pos, k)
  {
    forall k: nat | k < |out|
      ensures ElementOk(was, out, input, weights, n, step, rows, inOffset, outOffset, first, pos, k)
    {
      if InColumn(k - (outOffset + first), step, rows, first, n) {
        ElementDone(out, input, weights, n, step, rows, inOffset, outOffset, first, pos, k);
      } else if out[k] != was[k] {
        ChangedInColumn(was, out, n, step, rows, outOffset, first, k);
      }
    }
  }

  /** The body of a work-item, for its column's `rows` rows from element `offset` on. */
  method FilterColumn(out: array<real>, input: seq<int>, weights: seq<real>, n: int, step: nat, rows: nat,
                      inOffset: nat, outOffset: nat, offset: nat, pos: nat)
    requires 1 <= step && 3 * step + pos < |weights|
    requires InputCovers(input, step, rows, inOffset, offset, n)
    requires OutputCovers(out.Length, step, rows, outOffset, offset, n)
    modifies out
    ensures forall i: nat :: Reached(step, rows, offset, n, i) ==>
      RowDone(out[..], input, weights, step, pos, inOffset + offset, outOffset + offset, i)
    ensures OnlyRowsWritten(old(out[..]), out[..], step, rows, outOffset, offset, n)
  {
    var outBase, at, limit := outOffset + offset, inOffset + offset, n - offset;
    var samples, next := Prime(input, step, at);
    var rweights := LoadWeights(weights, step, pos);
    var i: nat := 0;
    while i < rows
      invariant i <= rows
      invariant fresh(samples) && fresh(rweights) && samples != rweights && samples.Length == TAPS == rweights.Length
      invariant forall j: nat :: j < TAPS ==> rweights[j] == Weight(weights, step, pos, j)
      invariant Buffered(samples[..], input, step, at, i, i + (TAPS - 1))
      invariant RowsDone(out[..], input, weights, step, pos, at, outBase, i)
      invariant OnlyRowsWritten(old(out[..]), out[..], step, rows, outOffset, offset, n)
    {
      var idx := Row(step, i);
      if idx >= limit {
        break;
      }
      assert WrittenBy(step, rows, outOffset, offset, n, outBase + idx, i);
      ghost var was := out[..];
      NextRow(out, samples, rweights, i, next, idx, outBase, input, weights, step, pos, at);
      OneMoreRow(was, out[..], input, weights, step, pos, at, outBase, i);
      OneMoreWritten(old(out[..]), was, out[..], step, rows, outOffset, offset, n,
                     outBase + idx, i, out[outBase + idx]);
      i := i + 1;
    }
    forall r: nat | Reached(step, rows, offset, n, r)
      ensures r < i
    {
      if i <= r {
        ReachedIsPrefix(step, rows, offset, n, i, r);
      }
    }
  }

  /** One work-item of the kernel: it works down column `pos` of its group's rows, keeping the last
      `TAPS` samples in a rotating buffer. Every row reached, `d` elements past the work-item's first
      one, gets the four weighted samples `step` apart that its definition asks for, and nothing else of
      the output changes. */
  method WorkItem(out: array<real>, input: seq<int>, weights: seq<real>, n: int, step: nat, stepy: nat,
                  inOffset: nat, outOffset: nat, groupY: nat, pos: nat)
    requires 1 <= step && 3 * step + pos < |weights|
    requires InputCovers(input, step, Rounds(stepy, step), inOffset, Row(stepy, groupY) + pos, n)
    requires OutputCovers(out.Length, step, Rounds(stepy, step), outOffset, Row(stepy, groupY) + pos, n)
    modifies out
    ensures forall k :: 0 <= k < out.Length ==>
      var first := groupY * stepy + pos;
      var d := k - (outOffset + first);
      if 0 <= d && d % step == 0 && d < stepy / step * step && first + d < n then
        var s := inOffset + first + d;
        && 0 <= s && s + 3 * step < |input|
        && out[k] == weights[pos] * input[s] as real + weights[step + pos] * input[s + step] as real
           + weights[2 * step + pos] * input[s + 2 * step] as real
           + weights[3 * step + pos] * input[s + 3 * step] as real
      else out[k] == old(out[k])
  {
    var offset, rows := Row(stepy, groupY) + pos, Rounds(stepy, step);
    FilterColumn(out, input, weights, n, step, rows, inOffset, outOffset, offset, pos);
    ghost var was := old(out[..]);
    ColumnDone(was, out[..], input, weights, n, step, rows, inOffset, outOffset, offset, pos);
    assert forall k: nat :: k < out.Length ==>
      && out[k] == out[..][k] && was[k] == old(out[k])
      && ElementOk(was, out[..], input, weights, n, step, rows, inOffset, outOffset, offset, pos, k);
  }

  // ---- which work-item writes what

  /** Work-item (`groupY`, `pos`) writes element `d` past the output offset, as its row `i`. */
  predicate Writes(step: nat, stepy: nat, n: int, d: nat, groupY: nat, pos: nat, i: nat)
    requires 1 <= step
  {
    pos < step && i < stepy / step && d == groupY * stepy + pos + i * step && d < n
  }

  lemma WholeRows(step: nat, stepy: nat)
    requires 1 <= step
    ensures Row(step, Rounds(stepy, step)) + Wrap(stepy, step) == stepy
  {
    CellOf(stepy, step);
  }

  lemma RowsFit(step: nat, stepy: nat, i: nat, pos: nat)
    requires 1 <= step && i < Rounds(stepy, step) && pos < step
    ensures Row(step, i) + pos < Row(step, Rounds(stepy, step)) <= stepy
  {
    RowMono(step, i, Rounds(stepy, step));
    WholeRows(step, stepy);
  }

  /** No two work-items write the same element, and none writes one twice. */
  lemma WritersUnique(step: nat, stepy: nat, n: int, d: nat, g1: nat, p1: nat, i1: nat, g2: nat, p2: nat, i2: nat)
    requires 1 <= step && Writes(step, stepy, n, d, g1, p1, i1) && Writes(step, stepy, n, d, g2, p2, i2)
    ensures g1 == g2 && p1 == p2 && i1 == i2
  {
    WriterOf(step, stepy, n, d, g1, p1, i1);
    WriterOf(step, stepy, n, d, g2, p2, i2);
  }

  /** The writer of an element can be read off its index. */
  lemma WriterOf(step: nat, stepy: nat, n: int, d: nat, g: nat, p: nat, i: nat)
    requires 1 <= step && Writes(step, stepy, n, d, g, p, i)
    ensures 1 <= stepy && g == Rounds(d, stepy)
    ensures i == Rounds(Wrap(d, stepy), step) && p == Wrap(Wrap(d, stepy), step)
    ensures Wrap(d, stepy) < Row(step, Rounds(stepy, step))
  {
    var rest := Cell(i, step, p);
    RowsFit(step, stepy, i, p);
    CellParts(g, stepy, rest);
    CellParts(i, step, p);
  }

  ghost predicate Covered(step: nat, stepy: nat, n: int, groups: nat, d: nat)
    requires 1 <= step
  {
    exists g: nat, p: nat, i: nat :: g < groups && Writes(step, stepy, n, d, g, p, i)
  }

  /** An element is written exactly when it lies in the whole rows of one of the groups: the early
      `idx >= n` break leaves out nothing. */
  lemma CoveredIff(step: nat, stepy: nat, n: int, groups: nat, d: nat)
    requires 1 <= step && 1 <= stepy && n <= Row(stepy, groups) && d < n
    ensures Covered(step, stepy, n, groups, d) <==> Wrap(d, stepy) < Row(step, Rounds(stepy, step))
  {
    var g, rest := Rounds(d, stepy), Wrap(d, stepy);
    if rest < Row(step, Rounds(stepy, step)) {
      var i, p := Rounds(rest, step), Wrap(rest, step);
      CellOf(d, stepy);
      CellOf(rest, step);
      RoundsBelow(d, groups, stepy);
      RoundsBelow(rest, Rounds(stepy, step), step);
      assert Writes(step, stepy, n, d, g, p, i);
    } else {
      forall g: nat, p: nat, i: nat | g < groups && Writes(step, stepy, n, d, g, p, i)
        ensures false
      {
        WriterOf(step, stepy, n, d, g, p, i);
      }
    }
  }

  /** Given enough groups, the work-items write the whole output exactly when `step` divides `stepy`,
      or the output ends within the first group's whole rows. */
  lemma OutputCoveredIff(step: nat, stepy: nat, n: int, groups: nat)
    requires 1 <= step && n <= Row(stepy, groups)
    ensures (forall d: nat :: d < n ==> Covered(step, stepy, n, groups, d)) <==>
            Wrap(stepy, step) == 0 || n <= Row(step, Rounds(stepy, step))
  {
    var whole := Row(step, Rounds(stepy, step));
    WholeRows(step, stepy);
    if Wrap(stepy, step) == 0 || n <= whole {
      forall d: nat | d < n
        ensures Covered(step, stepy, n, groups, d)
      {
        CoveredIff(step, stepy, n, groups, d);
        if d < stepy {
          ModSmall(d, stepy);
        }
      }
    } else {
      CoveredIff(step, stepy, n, groups, whole);
      ModSmall(whole, stepy);
    }
  }
}
