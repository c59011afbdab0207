/** Bounded reordering loses nothing: over whole runs, which packets reach which filled block. */
module NoLoss {
  import opened DivMod
  import opened Layout
  import opened Reassembler
  import opened History
  import opened Window

  /** How far a packet may lie behind an earlier one, in mcnts. */
  function MaxBehind(cfg: Config): int {
    3 * (cfg.nm / 2) - cfg.nm
  }

  /** How far a packet may lie ahead of all earlier ones. */
  function MaxAhead(cfg: Config): int {
    2 * cfg.nm - 3 * (cfg.nm / 2)
  }

  ghost predicate BoundedBehind(cfg: Config, ps: seq<Packet>) {
    forall i, j :: 0 <= i < j < |ps| ==> ps[i].mcnt <= ps[j].mcnt + MaxBehind(cfg)
  }

  /** Packet `j` is within the bound ahead of some earlier packet. */
  ghost predicate FollowsEarlier(cfg: Config, ps: seq<Packet>, j: nat)
    requires j < |ps|
  {
    exists i :: 0 <= i < j && ps[j].mcnt <= ps[i].mcnt + MaxAhead(cfg)
  }

  /** Every packet is in the first window, or within the bound ahead of an earlier packet. */
  ghost predicate BoundedAhead(cfg: Config, start: int, ps: seq<Packet>) {
    forall j :: 0 <= j < |ps| ==> ps[j].mcnt < start + 2 * cfg.nm || FollowsEarlier(cfg, ps, j)
  }

  ghost predicate AboveFloor(ps: seq<Packet>, floor: int) {
    forall j :: 0 <= j < |ps| ==> floor < ps[j].mcnt
  }

  /** The packets of a stream with mcnt in `[lo, lo + n)`, in stream order. */
  function InRange(ps: seq<Packet>, lo: int, n: nat): seq<Packet> {
    if ps == [] then []
    else
      var front := InRange(ps[..|ps| - 1], lo, n);
      if lo <= ps[|ps| - 1].mcnt < lo + n then front + [ps[|ps| - 1]] else front
  }

  lemma InRangeStep(front: seq<Packet>, p: Packet, lo: int, n: nat)
    ensures InRange(front + [p], lo, n) == InRange(front, lo, n) + if lo <= p.mcnt < lo + n then [p] else []
  {
    var ps := front + [p];
    assert ps[..|ps| - 1] == front;
  }

  ghost predicate Below(ps: seq<Packet>, bound: int) {
    forall i :: 0 <= i < |ps| ==> ps[i].mcnt < bound
  }

  lemma {:induction false} InRangeEmpty(ps: seq<Packet>, lo: int, n: nat)
    requires Below(ps, lo)
    ensures InRange(ps, lo, n) == []
  {
    if ps != [] {
      InRangeEmpty(ps[..|ps| - 1], lo, n);
    }
  }

  /** First mcnt of the `j`-th block from `start` on. */
  function BlockStart(cfg: Config, start: int, j: nat): (m: int)
    ensures start <= m
  {
    if j == 0 then start else BlockStart(cfg, start, j - 1) + cfg.nm
  }

  lemma {:induction false} BlockStartProduct(cfg: Config, start: int, j: nat)
    ensures BlockStart(cfg, start, j) == start + cfg.nm * j
  {
    if j > 0 {
      BlockStartProduct(cfg, start, j - 1);
      MulStep(cfg.nm, j - 1);
    }
  }

  // ---- what a stream does to the window, part one: where the window is

  /** The stream `ps` has been taken in since the window started at `start` with the log at `base`. */
  ghost predicate FlowPosition(cfg: Config, start: int, base: nat, epoch: nat, ps: seq<Packet>, t: Track) {
    var s := t.net.mcntStart;
    && t.epoch == epoch && base <= |t.log|
    && s == BlockStart(cfg, start, |t.log| - base)
    && Below(ps, s + 3 * (cfg.nm / 2))
    && (|t.log| == base || exists i :: 0 <= i < |ps| && s + MaxBehind(cfg) <= ps[i].mcnt)
  }

  lemma Positioned(cfg: Config, start: int, base: nat, epoch: nat, front: seq<Packet>, t: Track, p: Packet)
    requires cfg.Valid() && FlowPosition(cfg, start, base, epoch, front, t)
    requires BoundedBehind(cfg, front + [p]) && BoundedAhead(cfg, start, front + [p])
    ensures p.mcnt < start ==> t.net.mcntStart == start
    ensures start <= p.mcnt ==> t.net.mcntStart <= p.mcnt
    ensures p.mcnt < t.net.mcntStart + 2 * cfg.nm
  {
    var ps, j := front + [p], |front|;
    assert ps[j] == p && forall i :: 0 <= i < j ==> ps[i] == front[i];
    if |t.log| != base {
      var i :| 0 <= i < |front| && t.net.mcntStart + MaxBehind(cfg) <= front[i].mcnt;
      assert ps[i].mcnt <= ps[j].mcnt + MaxBehind(cfg);
    }
  }

  /** A packet of a bounded stream is in the window, or precedes the stream's start and is late. */
  lemma FlowClass(cfg: Config, start: int, base: nat, epoch: nat, front: seq<Packet>, t: Track, p: Packet)
    requires cfg.SpanFits() && WindowInv(cfg, t) && PacketOk(cfg, p)
    requires FlowPosition(cfg, start, base, epoch, front, t)
    requires BoundedBehind(cfg, front + [p]) && BoundedAhead(cfg, start, front + [p])
    requires start - cfg.LateThreshold() < p.mcnt
    ensures Classify(cfg, t.net, p) == if p.mcnt < start then Late else InWindow
    ensures MoveOf(cfg, t.net, p)
         == if start <= p.mcnt && t.net.mcntStart + 3 * (cfg.nm / 2) <= p.mcnt then Advance else Stay
  {
    MachineArithmeticFaithful(cfg, t, p);
    Positioned(cfg, start, base, epoch, front, t, p);
  }

  lemma PositionStep(cfg: Config, start: int, base: nat, epoch: nat, front: seq<Packet>, t: Track, r: Track, p: Packet)
    requires cfg.Valid() && FlowPosition(cfg, start, base, epoch, front, t)
    requires p.mcnt < t.net.mcntStart + 2 * cfg.nm
    requires Moves(cfg, t, r, if t.net.mcntStart + 3 * (cfg.nm / 2) <= p.mcnt then Advance else Stay)
    ensures FlowPosition(cfg, start, base, epoch, front + [p], r)
  {
    var ps := front + [p];
    assert ps[|front|] == p && forall i :: 0 <= i < |front| ==> ps[i] == front[i];
    if |t.log| != base && t.net.mcntStart + 3 * (cfg.nm / 2) > p.mcnt {
      var i :| 0 <= i < |front| && t.net.mcntStart + MaxBehind(cfg) <= front[i].mcnt;
      assert ps[i].mcnt == front[i].mcnt;
    }
  }

  // ---- part two: what the blocks hold

  ghost predicate FlowContents(cfg: Config, start: int, base: nat, ps: seq<Packet>, t: Track) {
    && base <= |t.log|
    && t.cur.filed == InRange(ps, t.net.mcntStart, cfg.nm)
    && t.nxt.filed == InRange(ps, t.net.mcntStart + cfg.nm, cfg.nm)
    && forall k :: base <= k < |t.log| ==> FilledAt(cfg, start, base, ps, t, k)
  }

  /** Log entry `k` is the stream's `k - base`-th block, holding the stream's packets for it. */
  ghost predicate FilledAt(cfg: Config, start: int, base: nat, ps: seq<Packet>, t: Track, k: nat)
    requires base <= k < |t.log|
  {
    var e := t.log[k];
    && e.mcnt == BlockStart(cfg, start, k - base)
    && e.mcnt + cfg.nm <= t.net.mcntStart
    && e.past.filed == InRange(ps, e.mcnt, cfg.nm)
  }

  /** How one call changes the pasts of the two owned blocks. */
  ghost predicate PastsGrow(cfg: Config, t: Track, r: Track, p: Packet) {
    match MoveOf(cfg, t.net, p)
    case Advance => r.cur.filed == t.nxt.filed + [p] && r.nxt.filed == []
    case Reset => r.cur.filed == [] == r.nxt.filed
    case Stay =>
      if !Classify(cfg, t.net, p).InWindow? then r.cur == t.cur && r.nxt == t.nxt
      else if p.mcnt < t.net.mcntStart + cfg.nm then r.cur.filed == t.cur.filed + [p] && r.nxt == t.nxt
      else r.cur == t.cur && r.nxt.filed == t.nxt.filed + [p]
  }

  lemma StepGrows(cfg: Config, t: Track, p: Packet)
    requires cfg.SpanFits() && WindowInv(cfg, t) && PacketOk(cfg, p)
    ensures PastsGrow(cfg, t, TStep(cfg, t, p), p)
  {
    MachineArithmeticFaithful(cfg, t, p);
    if Closes(cfg, t.net, p) {
      CloseInv(cfg, t, p);
      AcquireInv(cfg, TClose(cfg, t, p), p);
      MachineArithmeticFaithful(cfg, TAcquire(cfg, TClose(cfg, t, p), p), p);
    }
  }

  lemma FilledStep(cfg: Config, start: int, base: nat, front: seq<Packet>, t: Track, r: Track, p: Packet, k: nat)
    requires base <= k < |t.log| && FilledAt(cfg, start, base, front, t, k)
    requires |t.log| <= |r.log| && r.log[k] == t.log[k] && t.net.mcntStart <= r.net.mcntStart
    requires t.net.mcntStart <= p.mcnt || p.mcnt < start
    ensures FilledAt(cfg, start, base, front + [p], r, k)
  {
    InRangeStep(front, p, t.log[k].mcnt, cfg.nm);
  }

  /** The current block, filled when packet `p` arrives, already holds all the stream has for it. */
  lemma FilledLast(cfg: Config, start: int, base: nat, epoch: nat, front: seq<Packet>, t: Track, r: Track, p: Packet)
    requires cfg.Valid() && FlowPosition(cfg, start, base, epoch, front, t) && FlowContents(cfg, start, base, front, t)
    requires Moves(cfg, t, r, Advance) && t.net.mcntStart + cfg.nm <= p.mcnt
    ensures FilledAt(cfg, start, base, front + [p], r, |t.log|)
  {
    InRangeStep(front, p, t.net.mcntStart, cfg.nm);
  }

  lemma FilledAdvance(cfg: Config, start: int, base: nat, epoch: nat, front: seq<Packet>, t: Track, r: Track, p: Packet)
    requires cfg.Valid() && FlowPosition(cfg, start, base, epoch, front, t) && FlowContents(cfg, start, base, front, t)
    requires t.net.mcntStart + cfg.nm <= p.mcnt && Moves(cfg, t, r, Advance)
    ensures forall k :: base <= k < |r.log| ==> FilledAt(cfg, start, base, front + [p], r, k)
  {
    forall k | base <= k < |r.log|
      ensures FilledAt(cfg, start, base, front + [p], r, k)
    {
      if k < |t.log| {
        assert r.log[k] == r.log[..|t.log|][k];
        FilledStep(cfg, start, base, front, t, r, p, k);
      } else {
        FilledLast(cfg, start, base, epoch, front, t, r, p);
      }
    }
  }

  lemma ContentsAdvance(cfg: Config, start: int, base: nat, epoch: nat, front: seq<Packet>,
                        t: Track, r: Track, p: Packet)
    requires cfg.Valid() && FlowPosition(cfg, start, base, epoch, front, t) && FlowContents(cfg, start, base, front, t)
    requires t.net.mcntStart + 3 * (cfg.nm / 2) <= p.mcnt < t.net.mcntStart + 2 * cfg.nm
    requires Moves(cfg, t, r, Advance)
    requires r.cur.filed == t.nxt.filed + [p] && r.nxt.filed == []
    ensures FlowContents(cfg, start, base, front + [p], r)
  {
    var s := t.net.mcntStart;
    InRangeStep(front, p, s + cfg.nm, cfg.nm);
    InRangeStep(front, p, s + 2 * cfg.nm, cfg.nm);
    InRangeEmpty(front, s + 2 * cfg.nm, cfg.nm);
    FilledAdvance(cfg, start, base, epoch, front, t, r, p);
  }

  lemma ContentsStay(cfg: Config, start: int, base: nat, front: seq<Packet>, t: Track, r: Track, p: Packet)
    requires cfg.Valid() && FlowContents(cfg, start, base, front, t) && Moves(cfg, t, r, Stay)
    requires t.net.mcntStart <= p.mcnt || p.mcnt < start <= t.net.mcntStart
    requires r.cur.filed == t.cur.filed + if t.net.mcntStart <= p.mcnt < t.net.mcntStart + cfg.nm then [p] else []
    requires r.nxt.filed
          == t.nxt.filed + if t.net.mcntStart + cfg.nm <= p.mcnt < t.net.mcntStart + 2 * cfg.nm then [p] else []
    ensures FlowContents(cfg, start, base, front + [p], r)
  {
    InRangeStep(front, p, t.net.mcntStart, cfg.nm);
    InRangeStep(front, p, t.net.mcntStart + cfg.nm, cfg.nm);
    forall k | base <= k < |r.log|
      ensures FilledAt(cfg, start, base, front + [p], r, k)
    {
      FilledStep(cfg, start, base, front, t, r, p, k);
    }
  }

  lemma ContentsStep(cfg: Config, start: int, base: nat, epoch: nat, front: seq<Packet>, t: Track, p: Packet)
    requires cfg.SpanFits() && WindowInv(cfg, t) && PacketOk(cfg, p)
    requires FlowPosition(cfg, start, base, epoch, front, t) && FlowContents(cfg, start, base, front, t)
    requires BoundedBehind(cfg, front + [p]) && BoundedAhead(cfg, start, front + [p])
    requires start - cfg.LateThreshold() < p.mcnt
    ensures FlowPosition(cfg, start, base, epoch, front + [p], TStep(cfg, t, p))
    ensures FlowContents(cfg, start, base, front + [p], TStep(cfg, t, p))
  {
    var r := TStep(cfg, t, p);
    FlowClass(cfg, start, base, epoch, front, t, p);
    Positioned(cfg, start, base, epoch, front, t, p);
    StepMoves(cfg, t, p);
    StepGrows(cfg, t, p);
    PositionStep(cfg, start, base, epoch, front, t, r, p);
    if MoveOf(cfg, t.net, p).Advance? {
      ContentsAdvance(cfg, start, base, epoch, front, t, r, p);
    } else {
      ContentsStay(cfg, start, base, front, t, r, p);
    }
  }

  // ---- whole streams

  lemma BoundsOfPrefix(cfg: Config, start: int, ps: seq<Packet>, j: nat)
    requires j <= |ps| && BoundedBehind(cfg, ps) && BoundedAhead(cfg, start, ps)
    ensures BoundedBehind(cfg, ps[..j]) && BoundedAhead(cfg, start, ps[..j])
  {
    var qs := ps[..j];
    forall k | 0 <= k < j
      ensures qs[k].mcnt < start + 2 * cfg.nm || FollowsEarlier(cfg, qs, k)
    {
      if FollowsEarlier(cfg, ps, k) {
        var i :| 0 <= i < k && ps[k].mcnt <= ps[i].mcnt + MaxAhead(cfg);
        assert qs[k].mcnt <= qs[i].mcnt + MaxAhead(cfg);
      }
    }
  }

  /** A stream that a window starting at `start` can take in. */
  ghost predicate Admissible(cfg: Config, start: int, ps: seq<Packet>) {
    && PacketsOk(cfg, ps) && BoundedBehind(cfg, ps) && BoundedAhead(cfg, start, ps)
    && AboveFloor(ps, start - cfg.LateThreshold())
  }

  lemma AdmissiblePrefix(cfg: Config, start: int, ps: seq<Packet>, j: nat)
    requires j <= |ps| && Admissible(cfg, start, ps)
    ensures Admissible(cfg, start, ps[..j])
  {
    BoundsOfPrefix(cfg, start, ps, j);
    assert forall i :: 0 <= i < j ==> ps[..j][i] == ps[i];
  }

  /** An empty window at `start`, ready for a stream. */
  ghost predicate FreshWindow(cfg: Config, t: Track) {
    WindowInv(cfg, t) && t.cur.filed == [] == t.nxt.filed
  }

  /** The position and contents after a whole stream that respects the bounds. */
  lemma {:induction false} Flow(cfg: Config, t: Track, ps: seq<Packet>)
    requires cfg.SpanFits() && FreshWindow(cfg, t) && Admissible(cfg, t.net.mcntStart, ps)
    ensures WindowInv(cfg, TRun(cfg, t, ps))
    ensures FlowPosition(cfg, t.net.mcntStart, |t.log|, t.epoch, ps, TRun(cfg, t, ps))
    ensures FlowContents(cfg, t.net.mcntStart, |t.log|, ps, TRun(cfg, t, ps))
  {
    if ps != [] {
      var front, p := ps[..|ps| - 1], ps[|ps| - 1];
      assert ps == front + [p];
      AdmissiblePrefix(cfg, t.net.mcntStart, ps, |ps| - 1);
      Flow(cfg, t, front);
      StepInv(cfg, TRun(cfg, t, front), p);
      ContentsStep(cfg, t.net.mcntStart, |t.log|, t.epoch, front, TRun(cfg, t, front), p);
    }
  }

  /** The class of the `j`-th packet of a run as it arrives. */
  function Arrives(cfg: Config, n: Net, ps: seq<Packet>, j: nat): Class
    requires Shape(cfg, n) && j < |ps|
  {
    Classify(cfg, Run(cfg, n, ps[..j]), ps[j])
  }

  /** Over a bounded stream, the class of every packet as it arrives: none is out of sequence, and the
      late ones are exactly those from before the window's start. */
  lemma ArrivalClass(cfg: Config, t: Track, ps: seq<Packet>, j: nat)
    requires cfg.SpanFits() && FreshWindow(cfg, t) && Admissible(cfg, t.net.mcntStart, ps) && j < |ps|
    ensures Arrives(cfg, t.net, ps, j) == if ps[j].mcnt < t.net.mcntStart then Late else InWindow
  {
    assert ps[..j + 1] == ps[..j] + [ps[j]];
    AdmissiblePrefix(cfg, t.net.mcntStart, ps, j);
    AdmissiblePrefix(cfg, t.net.mcntStart, ps, j + 1);
    Flow(cfg, t, ps[..j]);
    FlowClass(cfg, t.net.mcntStart, |t.log|, t.epoch, ps[..j], TRun(cfg, t, ps[..j]), ps[j]);
  }

  /** What "nothing is lost" says of the state after a stream: the blocks filled meanwhile, then the
      current and the next block, follow on from `start`, and each was given exactly the stream's
      packets in its range; together they cover every packet. */
  ghost predicate NothingLost(cfg: Config, t: Track, ps: seq<Packet>, r: Track) {
    var start, base := t.net.mcntStart, |t.log|;
    && base <= |r.log| && r.epoch == t.epoch
    && r.net.mcntStart == BlockStart(cfg, start, |r.log| - base)
    && (forall k :: base <= k < |r.log| ==> FilledAt(cfg, start, base, ps, r, k))
    && r.cur.filed == InRange(ps, r.net.mcntStart, cfg.nm)
    && r.nxt.filed == InRange(ps, r.net.mcntStart + cfg.nm, cfg.nm)
    && Below(ps, r.net.mcntStart + 2 * cfg.nm)
  }

  /** No loss under bounded reordering: if no packet lies below the window's start, every packet is
      in the first window or at most `MaxAhead` beyond an earlier one, and at most `MaxBehind` before
      any earlier one, then every packet is accepted as it arrives, no resync happens, and each filled
      block holds exactly the stream's packets for its range. */
  lemma NoLossUnderBoundedReordering(cfg: Config, t: Track, ps: seq<Packet>)
    requires cfg.SpanFits() && FreshWindow(cfg, t) && PacketsOk(cfg, ps)
    requires BoundedBehind(cfg, ps) && BoundedAhead(cfg, t.net.mcntStart, ps)
    requires AboveFloor(ps, t.net.mcntStart - 1)
    ensures NothingLost(cfg, t, ps, TRun(cfg, t, ps))
    ensures AllInWindow(cfg, t.net, ps)
  {
    assert Admissible(cfg, t.net.mcntStart, ps) by {
      assert cfg.LateThreshold() >= 1;
    }
    Flow(cfg, t, ps);
    FlowLosesNothing(cfg, t, ps, TRun(cfg, t, ps));
    forall j | 0 <= j < |ps|
      ensures Arrives(cfg, t.net, ps, j).InWindow?
    {
      ArrivalClass(cfg, t, ps, j);
    }
  }

  /** Every packet is in the window when it arrives. */
  ghost predicate AllInWindow(cfg: Config, n: Net, ps: seq<Packet>)
    requires Shape(cfg, n)
  {
    forall j :: 0 <= j < |ps| ==> Arrives(cfg, n, ps, j).InWindow?
  }

  lemma FlowLosesNothing(cfg: Config, t: Track, ps: seq<Packet>, r: Track)
    requires cfg.Valid() && FlowPosition(cfg, t.net.mcntStart, |t.log|, t.epoch, ps, r)
    requires FlowContents(cfg, t.net.mcntStart, |t.log|, ps, r)
    ensures NothingLost(cfg, t, ps, r)
  {
  }

  lemma {:induction false} BlockOf(cfg: Config, start: int, n: nat, m: int) returns (k: nat)
    requires start <= m < BlockStart(cfg, start, n)
    ensures k < n && BlockStart(cfg, start, k) <= m < BlockStart(cfg, start, k) + cfg.nm
  {
    if BlockStart(cfg, start, n - 1) <= m {
      k := n - 1;
    } else {
      k := BlockOf(cfg, start, n - 1, m);
    }
  }

  lemma {:induction false} InRangeHas(ps: seq<Packet>, lo: int, n: nat, j: nat)
    requires j < |ps| && lo <= ps[j].mcnt < lo + n
    ensures ps[j] in InRange(ps, lo, n)
  {
    if j < |ps| - 1 {
      InRangeHas(ps[..|ps| - 1], lo, n, j);
    }
  }

  ghost predicate FiledSomewhere(r: Track, base: nat, p: Packet) {
    p in r.cur.filed || p in r.nxt.filed || exists k :: base <= k < |r.log| && p in r.log[k].past.filed
  }

  /** When nothing is lost, every packet at or after the start of the window is in the current block,
      the next block, or a block filled since. */
  lemma EveryPacketFiled(cfg: Config, t: Track, ps: seq<Packet>, r: Track, j: nat)
    requires NothingLost(cfg, t, ps, r) && j < |ps| && t.net.mcntStart <= ps[j].mcnt
    ensures FiledSomewhere(r, |t.log|, ps[j])
  {
    var start, base, s, m := t.net.mcntStart, |t.log|, r.net.mcntStart, ps[j].mcnt;
    if m < s {
      var k := BlockOf(cfg, start, |r.log| - base, m);
      assert FilledAt(cfg, start, base, ps, r, base + k);
      InRangeHas(ps, r.log[base + k].mcnt, cfg.nm, j);
    } else if m < s + cfg.nm {
      InRangeHas(ps, s, cfg.nm, j);
    } else {
      InRangeHas(ps, s + cfg.nm, cfg.nm, j);
    }
  }

  /** A filled block's data: what was there, overwritten by the stream's accepted packets in its range. */
  lemma FilledHoldsStream(cfg: Config, t: Track, ps: seq<Packet>, r: Track, k: nat)
    requires WindowInv(cfg, r) && NothingLost(cfg, t, ps, r) && |t.log| <= k < |r.log|
    ensures var e := r.log[k];
      && e.mcnt == BlockStart(cfg, t.net.mcntStart, k - |t.log|)
      && e.block.header.mcnt == e.mcnt
      && e.block.data == PlaceAll(cfg, e.past.base, Accepted(cfg, InRange(ps, e.mcnt, cfg.nm)))
  {
    assert EntryOk(cfg, r.log, k);
    DataIs(cfg, r.log[k].block.data, r.log[k].past);
    assert FilledAt(cfg, t.net.mcntStart, |t.log|, ps, r, k);
  }

  // ---- the bounds cannot be relaxed

  /** One mcnt further behind and a packet is lost as late. */
  lemma BehindBoundTight(cfg: Config, t: Track, p: Packet, q: Packet)
    requires cfg.SpanFits() && FreshWindow(cfg, t) && PacketOk(cfg, p) && PacketOk(cfg, q)
    requires p.mcnt == t.net.mcntStart + 3 * (cfg.nm / 2) && q.mcnt + MaxBehind(cfg) + 1 == p.mcnt
    ensures Classify(cfg, t.net, p).InWindow? && t.net.mcntStart <= q.mcnt
    ensures Classify(cfg, Step(cfg, t.net, p), q).Late?
  {
    MachineArithmeticFaithful(cfg, t, p);
    StepInv(cfg, t, p);
    CloseMoves(cfg, t, p);
    MachineArithmeticFaithful(cfg, TStep(cfg, t, p), q);
    LateThresholdWide(cfg);
  }

  /** One mcnt further ahead and a packet is dropped as out of sequence. */
  lemma AheadBoundTight(cfg: Config, t: Track, p: Packet, q: Packet)
    requires cfg.SpanFits() && FreshWindow(cfg, t) && PacketOk(cfg, p) && PacketOk(cfg, q)
    requires p.mcnt == t.net.mcntStart + 3 * (cfg.nm / 2) - 1 && q.mcnt == p.mcnt + MaxAhead(cfg) + 1
    ensures Classify(cfg, t.net, p).InWindow?
    ensures Classify(cfg, Step(cfg, t.net, p), q).OutOfSequence?
  {
    MachineArithmeticFaithful(cfg, t, p);
    StepInv(cfg, t, p);
    StayMoves(cfg, t, p);
    MachineArithmeticFaithful(cfg, TStep(cfg, t, p), q);
  }

  lemma LateThresholdWide(cfg: Config)
    requires cfg.Valid()
    ensures 4 * cfg.nm <= cfg.LateThreshold()
  {
    MulMono(cfg.nm, 2, cfg.nBlocks);
  }
}
