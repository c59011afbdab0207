/** Resynchronisation: when the window is reset, and what the stream that caused it loses. */
module Recovery {
  import opened DivMod
  import opened Layout
  import opened Reassembler
  import opened History
  import opened Window
  import opened NoLoss

  /** None of the packets is in the window of state `n`. */
  ghost predicate AllOutside(cfg: Config, n: Net, qs: seq<Packet>) {
    forall i :: 0 <= i < |qs| ==> !Classify(cfg, n, qs[i]).InWindow?
  }

  function CountOutOfSequence(cfg: Config, n: Net, qs: seq<Packet>): (c: nat)
    ensures c <= |qs|
  {
    if qs == [] then 0
    else CountOutOfSequence(cfg, n, qs[..|qs| - 1])
         + if Classify(cfg, n, qs[|qs| - 1]).OutOfSequence? then 1 else 0
  }

  /** None of the packets is in the window, and none of them is one too many out of sequence. */
  ghost predicate Dropped(cfg: Config, n: Net, qs: seq<Packet>) {
    var count := CountOutOfSequence(cfg, n, qs);
    AllOutside(cfg, n, qs) && (count == 0 || n.outOfSeq + count <= cfg.MaxOutOfSeq())
  }

  /** Packets outside the window change nothing but the out-of-sequence count, until there are too
      many: no block, header, counter or window start. */
  lemma {:induction false} OutsideLeavesNoTrace(cfg: Config, t: Track, qs: seq<Packet>)
    requires Shape(cfg, t.net) && Dropped(cfg, t.net, qs)
    ensures TRun(cfg, t, qs) == t.(net := t.net.(outOfSeq := t.net.outOfSeq + CountOutOfSequence(cfg, t.net, qs)))
  {
    if qs != [] {
      var front := qs[..|qs| - 1];
      assert forall i :: 0 <= i < |front| ==> front[i] == qs[i];
      OutsideLeavesNoTrace(cfg, t, front);
    }
  }

  // ---- what the out-of-sequence count counts

  /** From its `k`-th packet on, a run sees no packet in the window. */
  ghost predicate NoneInWindow(cfg: Config, n: Net, ps: seq<Packet>, k: nat)
    requires Shape(cfg, n)
  {
    forall j :: k <= j < |ps| ==> !Arrives(cfg, n, ps, j).InWindow?
  }

  /** The last packet of a run in the window is the one before the `k`-th; there is none if `k` is 0. */
  ghost predicate LastInWindow(cfg: Config, n: Net, ps: seq<Packet>, k: nat)
    requires Shape(cfg, n)
  {
    k <= |ps| && NoneInWindow(cfg, n, ps, k) && (k == 0 || Arrives(cfg, n, ps, k - 1).InWindow?)
  }

  /** The packets of a run, from the `k`-th on, that arrive out of sequence. */
  ghost function OutOfSeqFrom(cfg: Config, n: Net, ps: seq<Packet>, k: nat): set<nat>
    requires Shape(cfg, n)
  {
    set j: nat | k <= j < |ps| && Arrives(cfg, n, ps, j).OutOfSequence?
  }

  lemma ArrivesInFront(cfg: Config, n: Net, ps: seq<Packet>, j: nat)
    requires Shape(cfg, n) && j < |ps| - 1
    ensures Arrives(cfg, n, ps[..|ps| - 1], j) == Arrives(cfg, n, ps, j)
  {
    assert ps[..|ps| - 1][..j] == ps[..j];
  }

  lemma OutOfSeqStep(cfg: Config, n: Net, ps: seq<Packet>, k: nat)
    requires Shape(cfg, n) && k < |ps|
    ensures var last := |ps| - 1;
      OutOfSeqFrom(cfg, n, ps, k)
      == OutOfSeqFrom(cfg, n, ps[..last], k) + if Arrives(cfg, n, ps, last).OutOfSequence? then {last} else {}
  {
    forall j: nat | j < |ps| - 1
      ensures Arrives(cfg, n, ps[..|ps| - 1], j) == Arrives(cfg, n, ps, j)
    {
      ArrivesInFront(cfg, n, ps, j);
    }
  }

  lemma NoneInFront(cfg: Config, n: Net, ps: seq<Packet>, k: nat)
    requires Shape(cfg, n) && k < |ps| && LastInWindow(cfg, n, ps, k)
    ensures LastInWindow(cfg, n, ps[..|ps| - 1], k)
  {
    var front := ps[..|ps| - 1];
    forall j: nat | k <= j < |front|
      ensures !Arrives(cfg, n, front, j).InWindow?
    {
      ArrivesInFront(cfg, n, ps, j);
    }
    if k > 0 {
      ArrivesInFront(cfg, n, ps, k - 1);
    }
  }

  lemma OutOfSeqAfter(cfg: Config, n: Net, p: Packet)
    requires Shape(cfg, n)
    ensures Step(cfg, n, p).outOfSeq
         == match Classify(cfg, n, p) case InWindow => 0 case Late => n.outOfSeq case OutOfSequence => n.outOfSeq + 1
  {
  }

  /** Over any run, whatever resets it contains, the out-of-sequence count is the number of packets that
      arrived out of sequence since the last one in the window, or since the run began. */
  lemma {:induction false} OutOfSeqCounts(cfg: Config, n: Net, ps: seq<Packet>, k: nat)
    requires Shape(cfg, n) && LastInWindow(cfg, n, ps, k)
    ensures Run(cfg, n, ps).outOfSeq == (if k == 0 then n.outOfSeq else 0) + |OutOfSeqFrom(cfg, n, ps, k)|
  {
    if ps != [] {
      OutOfSeqAfter(cfg, Run(cfg, n, ps[..|ps| - 1]), ps[|ps| - 1]);
    }
    if k == |ps| {
      assert OutOfSeqFrom(cfg, n, ps, k) == {};
    } else {
      NoneInFront(cfg, n, ps, k);
      OutOfSeqCounts(cfg, n, ps[..|ps| - 1], k);
      OutOfSeqStep(cfg, n, ps, k);
      assert !Arrives(cfg, n, ps, |ps| - 1).InWindow?;
    }
  }

  /** After any run, a packet resets the window exactly when it is out of sequence and twice as many
      packets as there are counters, or more, were since the last one in the window. */
  lemma ResyncExactlyWhenTooMany(cfg: Config, n: Net, ps: seq<Packet>, k: nat, q: Packet)
    requires Shape(cfg, n) && LastInWindow(cfg, n, ps, k)
    ensures Resyncs(cfg, Run(cfg, n, ps), q) <==>
            && Classify(cfg, Run(cfg, n, ps), q).OutOfSequence?
            && 2 * cfg.nBors <= (if k == 0 then n.outOfSeq else 0) + |OutOfSeqFrom(cfg, n, ps, k)|
  {
    OutOfSeqCounts(cfg, n, ps, k);
  }

  /** A reset does not clear the count: until a packet is in the window, every further out-of-sequence
      packet resets it again. */
  lemma {:induction false} ResetsUntilInWindow(cfg: Config, t: Track, q: Packet, ps: seq<Packet>)
    requires Shape(cfg, t.net) && Resyncs(cfg, t.net, q) && NoneInWindow(cfg, Step(cfg, t.net, q), ps, 0)
    ensures var r := TStep(cfg, t, q);
      && TRun(cfg, r, ps).epoch == t.epoch + 1 + |OutOfSeqFrom(cfg, r.net, ps, 0)|
      && TRun(cfg, r, ps).net.outOfSeq > cfg.MaxOutOfSeq()
  {
    var r := TStep(cfg, t, q);
    if ps == [] {
      assert OutOfSeqFrom(cfg, r.net, ps, 0) == {};
    } else {
      NoneInFront(cfg, r.net, ps, 0);
      ResetsUntilInWindow(cfg, t, q, ps[..|ps| - 1]);
      OutOfSeqStep(cfg, r.net, ps, 0);
      assert !Arrives(cfg, r.net, ps, |ps| - 1).InWindow?;
    }
  }

  // ---- recovery

  /** The stream continues from packet `q` within the reordering bounds. */
  ghost predicate Continues(cfg: Config, q: Packet, ps: seq<Packet>) {
    && PacketsOk(cfg, ps) && BoundedBehind(cfg, [q] + ps)
    && var all := [q] + ps;
       forall j :: 1 <= j < |all| ==> FollowsEarlier(cfg, all, j)
  }

  /** Where a reset puts the window relative to the packet that triggered it. */
  ghost predicate ResetNear(cfg: Config, start: int, q: Packet) {
    q.mcnt - cfg.nm < start <= q.mcnt + cfg.nm * (cfg.nBlocks - 1)
  }

  lemma ResetMargins(cfg: Config, start: int, q: Packet)
    requires cfg.Valid() && ResetNear(cfg, start, q)
    ensures q.mcnt + MaxAhead(cfg) < start + 2 * cfg.nm
    ensures start - cfg.LateThreshold() < q.mcnt - MaxBehind(cfg)
  {
    MulStep(cfg.nm, cfg.nBlocks - 1);
    MulMono(cfg.nm, 2, cfg.nBlocks);
  }

  lemma ContinuationAhead(cfg: Config, start: int, q: Packet, ps: seq<Packet>, j: nat)
    requires j < |ps| && FollowsEarlier(cfg, [q] + ps, j + 1) && q.mcnt + MaxAhead(cfg) < start + 2 * cfg.nm
    ensures ps[j].mcnt < start + 2 * cfg.nm || FollowsEarlier(cfg, ps, j)
  {
    var all := [q] + ps;
    var i :| 0 <= i < j + 1 && all[j + 1].mcnt <= all[i].mcnt + MaxAhead(cfg);
    if i > 0 {
      assert all[i] == ps[i - 1];
    }
  }

  lemma ContinuationAdmissible(cfg: Config, start: int, q: Packet, ps: seq<Packet>)
    requires cfg.Valid() && Continues(cfg, q, ps) && ResetNear(cfg, start, q)
    ensures Admissible(cfg, start, ps)
  {
    var all := [q] + ps;
    ResetMargins(cfg, start, q);
    forall j | 0 <= j < |ps|
      ensures ps[j].mcnt < start + 2 * cfg.nm || FollowsEarlier(cfg, ps, j)
    {
      assert FollowsEarlier(cfg, all, j + 1);
      ContinuationAhead(cfg, start, q, ps, j);
    }
    forall j | 0 <= j < |ps|
      ensures start - cfg.LateThreshold() < ps[j].mcnt
    {
      assert all[0].mcnt <= all[j + 1].mcnt + MaxBehind(cfg);
    }
    forall i, j | 0 <= i < j < |ps|
      ensures ps[i].mcnt <= ps[j].mcnt + MaxBehind(cfg)
    {
      assert all[i + 1].mcnt <= all[j + 1].mcnt + MaxBehind(cfg);
    }
  }

  /** The state just after a reset: an empty window, close to the packet that triggered it. */
  lemma AfterReset(cfg: Config, t: Track, q: Packet)
    requires cfg.SpanFits() && WindowInv(cfg, t) && PacketOk(cfg, q) && Resyncs(cfg, t.net, q)
    ensures var r := TStep(cfg, t, q);
      FreshWindow(cfg, r) && ResetNear(cfg, r.net.mcntStart, q) && r.net.mcntStart == ResyncStart(cfg, t.net, q)
      && r.epoch == t.epoch + 1 && r.log == t.log && r.net.blockI == t.net.blockI
  {
    StepInv(cfg, t, q);
    ResyncMoves(cfg, t, q);
    ResyncStartBounds(cfg, t.net, q);
    assert TStep(cfg, t, q).net.blockI == t.net.blockI by {
      ResyncKeepsBlocks(cfg, t.net.(outOfSeq := t.net.outOfSeq + 1), q);
    }
  }

  /** Packets `qs` are dropped, and then `q` is out of sequence and one too many. */
  ghost predicate Triggers(cfg: Config, n: Net, qs: seq<Packet>, q: Packet) {
    && PacketsOk(cfg, qs) && Dropped(cfg, n, qs)
    && PacketOk(cfg, q) && Classify(cfg, n, q).OutOfSequence?
    && cfg.MaxOutOfSeq() <= n.outOfSeq + CountOutOfSequence(cfg, n, qs)
  }

  /** The state in which the trigger finds the window: only the count has moved. The trigger resets the
      window, to a place that depends only on the packet and the slot owned. */
  lemma TriggerState(cfg: Config, t: Track, qs: seq<Packet>, q: Packet) returns (u: Track)
    requires WindowInv(cfg, t) && Triggers(cfg, t.net, qs, q)
    ensures u == t.(net := t.net.(outOfSeq := t.net.outOfSeq + CountOutOfSequence(cfg, t.net, qs)))
    ensures WindowInv(cfg, u) && Resyncs(cfg, u.net, q)
    ensures ResyncStart(cfg, u.net, q) == ResyncStart(cfg, t.net, q)
  {
    u := t.(net := t.net.(outOfSeq := t.net.outOfSeq + CountOutOfSequence(cfg, t.net, qs)));
  }

  /** Up to the trigger the window has not moved, and where the trigger moves it is already settled. */
  lemma TriggerReached(cfg: Config, t: Track, qs: seq<Packet>, q: Packet) returns (u: Track)
    requires cfg.SpanFits() && WindowInv(cfg, t) && Triggers(cfg, t.net, qs, q)
    ensures u == TRun(cfg, t, qs) && u == t.(net := t.net.(outOfSeq := u.net.outOfSeq))
    ensures WindowInv(cfg, u) && Resyncs(cfg, u.net, q)
    ensures ResyncStart(cfg, u.net, q) == ResyncStart(cfg, t.net, q)
  {
    u := TriggerState(cfg, t, qs, q);
    OutsideLeavesNoTrace(cfg, t, qs);
  }

  /** The state just after the trigger. */
  lemma TriggerMoves(cfg: Config, t: Track, qs: seq<Packet>, q: Packet)
    requires cfg.SpanFits() && WindowInv(cfg, t) && Triggers(cfg, t.net, qs, q)
    ensures var v := TStep(cfg, TRun(cfg, t, qs), q);
      && v.epoch == t.epoch + 1 && v.log == t.log && FreshWindow(cfg, v)
      && v.net.mcntStart == ResyncStart(cfg, t.net, q) && ResetNear(cfg, v.net.mcntStart, q)
  {
    var u := TriggerReached(cfg, t, qs, q);
    AfterReset(cfg, u, q);
  }

  /** Recovery. Suppose packets outside the window arrive with none inside it between, until
      `MaxOutOfSeq` in a row have been out of sequence, then one more out-of-sequence packet `q`, and
      then a stream `ps` that continues from `q` within the reordering bounds. Then `q` resets the
      window, exactly once: over all of `ps` the only packets dropped are those below the new start,
      all as late; every other packet is filed, and each block filled holds exactly the stream's
      packets for its range. */
  lemma ResyncRecovers(cfg: Config, t: Track, qs: seq<Packet>, q: Packet, ps: seq<Packet>)
    requires cfg.SpanFits() && WindowInv(cfg, t) && Triggers(cfg, t.net, qs, q) && Continues(cfg, q, ps)
    ensures var u := TRun(cfg, t, qs); var v := TStep(cfg, u, q);
      && u.net.blocks == t.net.blocks && u.net.mcntStart == t.net.mcntStart && u.log == t.log
      && v.epoch == t.epoch + 1 && v.log == t.log && FreshWindow(cfg, v)
      && v.net.mcntStart == ResyncStart(cfg, t.net, q) && ResetNear(cfg, v.net.mcntStart, q)
      && NothingLost(cfg, v, ps, TRun(cfg, v, ps))
      && OnlyEarlyDropped(cfg, v.net, ps)
  {
    var u := TriggerReached(cfg, t, qs, q);
    TriggerMoves(cfg, t, qs, q);
    var r := StreamFrom(cfg, TStep(cfg, u, q), q, ps);
    EarlyDropped(cfg, TStep(cfg, u, q), q, ps);
  }

  /** A packet is dropped on arrival exactly when it lies below the window's start, and then as late. */
  ghost predicate OnlyEarlyDropped(cfg: Config, n: Net, ps: seq<Packet>)
    requires Shape(cfg, n)
  {
    forall j: nat :: j < |ps| ==> LateIfEarly(cfg, n, ps, j)
  }

  ghost predicate LateIfEarly(cfg: Config, n: Net, ps: seq<Packet>, j: nat)
    requires Shape(cfg, n) && j < |ps|
  {
    Arrives(cfg, n, ps, j) == if ps[j].mcnt < n.mcntStart then Late else InWindow
  }

  /** From a window near its trigger, a stream that continues from it loses nothing at or above the start. */
  lemma StreamFrom(cfg: Config, v: Track, q: Packet, ps: seq<Packet>) returns (r: Track)
    requires cfg.SpanFits() && FreshWindow(cfg, v) && ResetNear(cfg, v.net.mcntStart, q) && Continues(cfg, q, ps)
    ensures r == TRun(cfg, v, ps) && WindowInv(cfg, r) && NothingLost(cfg, v, ps, r)
  {
    ContinuationAdmissible(cfg, v.net.mcntStart, q, ps);
    Flow(cfg, v, ps);
    r := TRun(cfg, v, ps);
    FlowLosesNothing(cfg, v, ps, r);
  }

  lemma EarlyDropped(cfg: Config, v: Track, q: Packet, ps: seq<Packet>)
    requires cfg.SpanFits() && FreshWindow(cfg, v) && ResetNear(cfg, v.net.mcntStart, q) && Continues(cfg, q, ps)
    ensures OnlyEarlyDropped(cfg, v.net, ps)
  {
    ContinuationAdmissible(cfg, v.net.mcntStart, q, ps);
    forall j: nat | j < |ps|
      ensures LateIfEarly(cfg, v.net, ps, j)
    {
      ArrivalClass(cfg, v, ps, j);
    }
  }
}
