/** End to end: from the packets received to the blocks the output thread consumes, in every
    interleaving of the three threads. */
module EndToEnd {
  import opened Words
  import opened Layout
  import opened Reassembler
  import opened History
  import opened Window
  import opened NoLoss
  import opened Recovery
  import opened Contents
  import opened Openers
  import opened Pipeline
  import opened PipelineRuns

  /** The packets the net thread has taken in, in order. */
  function Packets(acts: seq<Action>): seq<Packet> {
    if acts == [] then []
    else
      var front := Packets(acts[..|acts| - 1]);
      if acts[|acts| - 1].Receive? then front + [acts[|acts| - 1].p] else front
  }

  /** Track state `t` with program counter `pc` is what `ps` lead to: either all of their calls have
      finished, or the last one is at its wait. */
  ghost predicate HasTaken(cfg: Config, start: Track, ps: seq<Packet>, t: Track, pc: NetPc)
    requires Shape(cfg, start.net) && Shape(cfg, t.net)
  {
    match pc
    case Idle => t == TRun(cfg, start, ps)
    case Waiting(p) => Finish(cfg, t, p) == TRun(cfg, start, ps)
  }

  /** Interleaving does not matter to the net thread: its state is that of the plain packet loop. */
  lemma {:induction false} NetRunsAlone(cfg: Config, nOut: nat, memory: seq<Block>, outMemory: seq<Block>,
                                        acts: seq<Action>, s: Sys)
    requires Reached(cfg, nOut, memory, outMemory, acts, s)
    ensures HasTaken(cfg, TStart(cfg, memory), Packets(acts), s.net, s.netPc)
  {
    if acts != [] {
      var front, boot := acts[..|acts| - 1], Boot(cfg, nOut, memory, outMemory);
      var r := Exec(cfg, nOut, boot, front).value;
      NetRunsAlone(cfg, nOut, memory, outMemory, front, r);
      PacketsStep(acts);
      NetTakesStep(cfg, nOut, TStart(cfg, memory), Packets(front), r, acts[|acts| - 1]);
    }
  }

  lemma PacketsStep(acts: seq<Action>)
    requires acts != []
    ensures var a := acts[|acts| - 1];
      Packets(acts) == Packets(acts[..|acts| - 1]) + if a.Receive? then [a.p] else []
  {
  }

  lemma {:induction false} ReceivedOk(cfg: Config, nOut: nat, s: Sys, acts: seq<Action>)
    requires SysShape(cfg, nOut, s) && Exec(cfg, nOut, s, acts).Some?
    ensures PacketsOk(cfg, Packets(acts))
  {
    if acts != [] {
      ReceivedOk(cfg, nOut, s, acts[..|acts| - 1]);
      PacketsStep(acts);
    }
  }

  lemma RunAppend(cfg: Config, start: Track, ps: seq<Packet>, p: Packet)
    requires Shape(cfg, start.net)
    ensures TRun(cfg, start, ps + [p]) == TStep(cfg, TRun(cfg, start, ps), p)
  {
    var qs := ps + [p];
    assert qs[..|qs| - 1] == ps;
  }

  /** A closing call is its two halves, before and after the wait. */
  lemma StepInHalves(cfg: Config, t: Track, p: Packet)
    requires Shape(cfg, t.net) && Closes(cfg, t.net, p)
    ensures TStep(cfg, t, p) == Finish(cfg, TClose(cfg, t, p), p)
  {
  }

  lemma NetTakesStep(cfg: Config, nOut: nat, start: Track, ps: seq<Packet>, r: Sys, a: Action)
    requires SysShape(cfg, nOut, r) && Enabled(cfg, nOut, r, a) && Shape(cfg, start.net)
    requires HasTaken(cfg, start, ps, r.net, r.netPc)
    ensures var qs, s := ps + (if a.Receive? then [a.p] else []), Do(cfg, nOut, r, a);
      HasTaken(cfg, start, qs, s.net, s.netPc)
  {
    if a.Receive? {
      RunAppend(cfg, start, ps, a.p);
      if Closes(cfg, r.net.net, a.p) {
        StepInHalves(cfg, r.net, a.p);
      }
    } else {
      assert ps + [] == ps;
      if !a.AcquireBlock? {
        ConsumerKeepsNet(cfg, nOut, r, a);
      }
    }
  }

  lemma ConsumerKeepsNet(cfg: Config, nOut: nat, s: Sys, a: Action)
    requires SysShape(cfg, nOut, s) && Enabled(cfg, nOut, s, a) && IsConsumer(a)
    ensures Do(cfg, nOut, s, a).net == s.net && Do(cfg, nOut, s, a).netPc == s.netPc
  {
  }

  lemma FinishKeepsLog(cfg: Config, t: Track, p: Packet)
    requires Shape(cfg, t.net)
    ensures Finish(cfg, t, p).log == t.log
  {
  }

  lemma ConsumedIsLogged(s: Sys, i: nat)
    requires s.consumed <= LogBlocks(s.net.log) && i < |s.consumed|
    ensures i < |s.net.log| && s.consumed[i] == s.net.log[i].block
  {
    assert s.consumed[i] == LogBlocks(s.net.log)[i];
  }

  lemma LogIsRuns(cfg: Config, start: Track, ps: seq<Packet>, s: Sys)
    requires Shape(cfg, start.net) && Shape(cfg, s.net.net) && HasTaken(cfg, start, ps, s.net, s.netPc)
    ensures TRun(cfg, start, ps).log == s.net.log
  {
    if s.netPc.Waiting? {
      FinishKeepsLog(cfg, s.net, s.netPc.p);
    }
  }

  lemma {:induction false} RunSplit(cfg: Config, t: Track, ps: seq<Packet>, qs: seq<Packet>)
    requires Shape(cfg, t.net)
    ensures TRun(cfg, t, ps + qs) == TRun(cfg, TRun(cfg, t, ps), qs)
  {
    if qs == [] {
      assert ps + qs == ps;
    } else {
      var front, q := qs[..|qs| - 1], qs[|qs| - 1];
      assert ps + qs == ps + front + [q];
      RunSplit(cfg, t, ps, front);
      RunAppend(cfg, t, ps + front, q);
    }
  }

  /** What the output thread has consumed are the first blocks a plain run of the packet loop fills. */
  lemma ConsumedFromRun(cfg: Config, nOut: nat, memory: seq<Block>, outMemory: seq<Block>, acts: seq<Action>,
                        s: Sys, i: nat)
    requires Reached(cfg, nOut, memory, outMemory, acts, s) && i < |s.consumed|
    ensures var r := TRun(cfg, TStart(cfg, memory), Packets(acts));
      && PacketsOk(cfg, Packets(acts))
      && r.log == s.net.log && i < |r.log| && s.consumed[i] == r.log[i].block
  {
    NetRunsAlone(cfg, nOut, memory, outMemory, acts, s);
    ReceivedOk(cfg, nOut, Boot(cfg, nOut, memory, outMemory), acts);
    LogIsRuns(cfg, TStart(cfg, memory), Packets(acts), s);
    LosslessFifo(cfg, nOut, memory, outMemory, acts, s);
    ConsumedIsLogged(s, i);
  }

  // ---- streams that begin in the first window

  /** If the packets received, from mcnt 0 on, respect the reordering bounds, then in every interleaving
      the `i`-th block consumed by the output thread is the stream's `i`-th block: its header carries
      that mcnt, and its data are exactly the stream's accepted packets for that range, laid over what
      the block held when the net thread acquired it. */
  lemma OutputHoldsStream(cfg: Config, nOut: nat, memory: seq<Block>, outMemory: seq<Block>, acts: seq<Action>,
                          s: Sys, i: nat)
    requires Reached(cfg, nOut, memory, outMemory, acts, s) && i < |s.consumed|
    requires BoundedBehind(cfg, Packets(acts)) && BoundedAhead(cfg, 0, Packets(acts))
    ensures i < |s.net.log| && s.consumed[i].header.mcnt == cfg.nm * i
    ensures s.consumed[i].data
         == PlaceAll(cfg, s.net.log[i].past.base, Accepted(cfg, InRange(Packets(acts), cfg.nm * i, cfg.nm)))
  {
    var start, ps := TStart(cfg, memory), Packets(acts);
    ConsumedFromRun(cfg, nOut, memory, outMemory, acts, s, i);
    StartInv(cfg, memory);
    RunInv(cfg, start, ps);
    NoLossUnderBoundedReordering(cfg, start, ps);
    FilledHoldsStream(cfg, start, ps, TRun(cfg, start, ps), i);
    BlockStartProduct(cfg, 0, i);
  }

  // ---- streams that begin with a resync

  /** The run of a stream with a reset in it: before, up to the trigger, the trigger, after. */
  lemma RunWithReset(cfg: Config, t: Track, pre: seq<Packet>, qs: seq<Packet>, q: Packet, ps: seq<Packet>)
    requires Shape(cfg, t.net)
    ensures TRun(cfg, t, pre + qs + [q] + ps)
         == TRun(cfg, TStep(cfg, TRun(cfg, TRun(cfg, t, pre), qs), q), ps)
  {
    RunSplit(cfg, t, pre, qs);
    RunAppend(cfg, t, pre + qs, q);
    RunSplit(cfg, t, pre + qs + [q], ps);
  }

  lemma FrontOk(cfg: Config, pre: seq<Packet>, qs: seq<Packet>, q: Packet, ps: seq<Packet>)
    requires PacketsOk(cfg, pre + qs + [q] + ps)
    ensures PacketsOk(cfg, pre)
  {
    var all := pre + qs + [q] + ps;
    forall i | 0 <= i < |pre|
      ensures PacketOk(cfg, pre[i])
    {
      assert all[i] == pre[i];
    }
  }

  /** What is left of a run after a reset in it: a fresh window near the trigger, and the stream. */
  ghost predicate Resumes(cfg: Config, v: Track, start: int, base: nat, q: Packet, ps: seq<Packet>, log: seq<Filled>)
    requires Shape(cfg, v.net)
  {
    && FreshWindow(cfg, v) && v.net.mcntStart == start && |v.log| == base && ResetNear(cfg, start, q)
    && log == TRun(cfg, v, ps).log
  }

  lemma ResyncedRun(cfg: Config, t: Track, pre: seq<Packet>, qs: seq<Packet>, q: Packet, ps: seq<Packet>,
                    log: seq<Filled>)
      returns (v: Track)
    requires cfg.SpanFits() && WindowInv(cfg, t) && PacketsOk(cfg, pre)
    requires Triggers(cfg, TRun(cfg, t, pre).net, qs, q)
    requires log == TRun(cfg, t, pre + qs + [q] + ps).log
    ensures var u := TRun(cfg, t, pre);
      Shape(cfg, v.net) && Resumes(cfg, v, ResyncStart(cfg, u.net, q), |u.log|, q, ps, log)
  {
    v := TStep(cfg, TRun(cfg, TRun(cfg, t, pre), qs), q);
    RunWithReset(cfg, t, pre, qs, q, ps);
    RunInv(cfg, t, pre);
    TriggerMoves(cfg, TRun(cfg, t, pre), qs, q);
  }

  lemma ResumedHolds(cfg: Config, v: Track, start: int, base: nat, q: Packet, ps: seq<Packet>, log: seq<Filled>, i: nat)
    requires cfg.SpanFits() && Shape(cfg, v.net) && Resumes(cfg, v, start, base, q, ps, log)
    requires Continues(cfg, q, ps) && base <= i < |log|
    ensures HoldsStream(cfg, BlockStart(cfg, start, i - base), ps, log[i])
  {
    var r := StreamFrom(cfg, v, q, ps);
    RunHoldsStream(cfg, v, ps, r, i);
  }

  /** The packets received are `pre`, then packets outside the window and `q`, which trigger a reset to
      `start` with `base` blocks filled, then a stream `ps` that continues from `q`. */
  ghost predicate ResetTo(cfg: Config, t: Track, all: seq<Packet>, start: int, base: nat,
                          pre: seq<Packet>, qs: seq<Packet>, q: Packet, ps: seq<Packet>)
    requires Shape(cfg, t.net)
  {
    var u := TRun(cfg, t, pre);
    && all == pre + qs + [q] + ps && Triggers(cfg, u.net, qs, q) && Continues(cfg, q, ps)
    && start == ResyncStart(cfg, u.net, q) && base == |u.log|
  }

  /** What a plain run of the packet loop has filled after a resync. */
  lemma LogAfterResync(cfg: Config, t: Track, all: seq<Packet>, start: int, base: nat,
                       pre: seq<Packet>, qs: seq<Packet>, q: Packet, ps: seq<Packet>, log: seq<Filled>, i: nat)
    requires cfg.SpanFits() && WindowInv(cfg, t) && PacketsOk(cfg, all)
    requires ResetTo(cfg, t, all, start, base, pre, qs, q, ps)
    requires log == TRun(cfg, t, all).log && base <= i < |log|
    ensures HoldsStream(cfg, BlockStart(cfg, start, i - base), ps, log[i])
  {
    FrontOk(cfg, pre, qs, q, ps);
    var v := ResyncedRun(cfg, t, pre, qs, q, ps, log);
    ResumedHolds(cfg, v, start, base, q, ps, log, i);
  }

  /** Recovery, end to end. Whatever packets `pre` came before: if packets outside the window and then
      `q` trigger a reset, and the stream `ps` continues from `q` within the reordering bounds, then in
      every interleaving the blocks the output thread consumes from there on are the stream's, one after
      the other from the new start, each holding exactly the stream's accepted packets for its range. */
  lemma OutputAfterResync(cfg: Config, nOut: nat, memory: seq<Block>, outMemory: seq<Block>, acts: seq<Action>, s: Sys,
                          start: int, base: nat, pre: seq<Packet>, qs: seq<Packet>, q: Packet, ps: seq<Packet>, i: nat)
    requires Reached(cfg, nOut, memory, outMemory, acts, s)
    requires ResetTo(cfg, TStart(cfg, memory), Packets(acts), start, base, pre, qs, q, ps)
    requires base <= i < |s.consumed|
    ensures var m := BlockStart(cfg, start, i - base);
      && i < |s.net.log| && s.consumed[i].header.mcnt == m
      && s.consumed[i].data == PlaceAll(cfg, s.net.log[i].past.base, Accepted(cfg, InRange(ps, m, cfg.nm)))
  {
    ConsumedFromRun(cfg, nOut, memory, outMemory, acts, s, i);
    StartInv(cfg, memory);
    LogAfterResync(cfg, TStart(cfg, memory), Packets(acts), start, base, pre, qs, q, ps, s.net.log, i);
  }

  // ---- the output as a function of the stream and the ring's memory

  /** From the start-up state `t` the packets `all` settle on a stream `ps` in a window that begins at
      `start`: at once, or after a resync. */
  ghost predicate Settles(cfg: Config, t: Track, all: seq<Packet>, start: int, ps: seq<Packet>)
    requires Shape(cfg, t.net)
  {
    || (all == ps && start == 0 && BoundedBehind(cfg, ps) && BoundedAhead(cfg, 0, ps))
    || (0 <= start && exists qs, q :: ResetTo(cfg, t, all, start, 0, [], qs, q, ps))
  }

  lemma SettledLog(cfg: Config, memory: seq<Block>, all: seq<Packet>, start: int, ps: seq<Packet>, i: nat)
    requires cfg.Valid() && cfg.SpanFits() && RingShape(cfg, memory) && PacketsOk(cfg, all)
    requires Settles(cfg, TStart(cfg, memory), all, start, ps)
    requires i < |TRun(cfg, TStart(cfg, memory), all).log|
    ensures var e := TRun(cfg, TStart(cfg, memory), all).log[i];
      e.block.header.mcnt == BlockStart(cfg, start, i) && e.block.data == Content(cfg, memory, start, ps, i)
  {
    var t := TStart(cfg, memory);
    StartInv(cfg, memory);
    StartInherits(cfg, memory);
    RunInv(cfg, t, all);
    if all == ps && start == 0 && BoundedBehind(cfg, ps) && BoundedAhead(cfg, 0, ps) {
      NoLossUnderBoundedReordering(cfg, t, ps);
      RunInherits(cfg, memory, t, ps);
      RunIsContent(cfg, memory, t, ps, TRun(cfg, t, ps), i);
    } else {
      var qs, q :| ResetTo(cfg, t, all, start, 0, [], qs, q, ps);
      SettledByReset(cfg, memory, all, start, ps, qs, q, i);
    }
  }

  /** Packets dropped from a fresh window on leave it empty, over the same memory. */
  lemma DroppedInherits(cfg: Config, memory: seq<Block>, t: Track, qs: seq<Packet>, q: Packet)
    requires cfg.SpanFits() && RingShape(cfg, memory) && FreshWindow(cfg, t) && Inherits(cfg, memory, t)
    requires Triggers(cfg, t.net, qs, q)
    ensures var u := TRun(cfg, t, qs);
      FreshWindow(cfg, u) && Resyncs(cfg, u.net, q) && Inherits(cfg, memory, u)
  {
    var u := TriggerReached(cfg, t, qs, q);
    SameInherits(cfg, memory, t, u);
  }

  lemma SameInherits(cfg: Config, memory: seq<Block>, t: Track, u: Track)
    requires RingShape(cfg, memory) && Shape(cfg, t.net) && Shape(cfg, u.net) && Inherits(cfg, memory, t)
    requires u == t.(net := t.net.(outOfSeq := u.net.outOfSeq))
    ensures Inherits(cfg, memory, u)
  {
  }

  /** After a resync of a fresh window it is still over the ring's memory. */
  lemma ResyncInherits(cfg: Config, memory: seq<Block>, t: Track, qs: seq<Packet>, q: Packet)
    requires cfg.SpanFits() && RingShape(cfg, memory) && FreshWindow(cfg, t) && Inherits(cfg, memory, t)
    requires Triggers(cfg, t.net, qs, q)
    ensures var v := TStep(cfg, TRun(cfg, t, qs), q);
      WindowInv(cfg, v) && Inherits(cfg, memory, v)
  {
    var u := TRun(cfg, t, qs);
    DroppedInherits(cfg, memory, t, qs, q);
    StepInv(cfg, u, q);
    ResetInherits(cfg, memory, u, q);
  }

  lemma SettledByReset(cfg: Config, memory: seq<Block>, all: seq<Packet>, start: int, ps: seq<Packet>,
                       qs: seq<Packet>, q: Packet, i: nat)
    requires cfg.Valid() && cfg.SpanFits() && RingShape(cfg, memory) && PacketsOk(cfg, all)
    requires 0 <= start && ResetTo(cfg, TStart(cfg, memory), all, start, 0, [], qs, q, ps)
    requires i < |TRun(cfg, TStart(cfg, memory), all).log|
    ensures var e := TRun(cfg, TStart(cfg, memory), all).log[i];
      e.block.header.mcnt == BlockStart(cfg, start, i) && e.block.data == Content(cfg, memory, start, ps, i)
  {
    var t := TStart(cfg, memory);
    var v := TStep(cfg, TRun(cfg, t, qs), q);
    assert [] + qs == qs;
    RunWithReset(cfg, t, [], qs, q, ps);
    StartInv(cfg, memory);
    StartInherits(cfg, memory);
    ResyncInherits(cfg, memory, t, qs, q);
    ResyncRecovers(cfg, t, qs, q, ps);
    RunInv(cfg, v, ps);
    RunInherits(cfg, memory, v, ps);
    RunIsContent(cfg, memory, v, ps, TRun(cfg, v, ps), i);
  }

  /** Once the packets received settle on a stream, from the first packet on or after the start-up
      resync, the blocks the output thread consumes are determined, in every interleaving, by the stream
      and what the input ring's memory held at start-up: mcnts and every word of data. */
  lemma OutputIsContent(cfg: Config, nOut: nat, memory: seq<Block>, outMemory: seq<Block>, acts: seq<Action>, s: Sys,
                        start: int, ps: seq<Packet>, i: nat)
    requires Reached(cfg, nOut, memory, outMemory, acts, s) && i < |s.consumed|
    requires Settles(cfg, TStart(cfg, memory), Packets(acts), start, ps)
    ensures s.consumed[i].header.mcnt == BlockStart(cfg, start, i)
    ensures s.consumed[i].data == Content(cfg, memory, start, ps, i)
  {
    ConsumedFromRun(cfg, nOut, memory, outMemory, acts, s, i);
    SettledLog(cfg, memory, Packets(acts), start, ps, i);
  }

  /** Nor does the order of arrival matter: two pipelines over the same initial memory, fed the same
      packets in different orders, scheduled differently, with output rings of different sizes, give the
      output thread the same blocks. */
  lemma OutputOrderIrrelevant(cfg: Config, memory: seq<Block>, start: int,
                              nOut1: nat, out1: seq<Block>, acts1: seq<Action>, s1: Sys, ps1: seq<Packet>,
                              nOut2: nat, out2: seq<Block>, acts2: seq<Action>, s2: Sys, ps2: seq<Packet>, i: nat)
    requires Reached(cfg, nOut1, memory, out1, acts1, s1) && Reached(cfg, nOut2, memory, out2, acts2, s2)
    requires Settles(cfg, TStart(cfg, memory), Packets(acts1), start, ps1)
    requires Settles(cfg, TStart(cfg, memory), Packets(acts2), start, ps2)
    requires multiset(ps1) == multiset(ps2) && Unambiguous(cfg, ps1)
    requires i < |s1.consumed| && i < |s2.consumed|
    ensures s1.consumed[i].header.mcnt == s2.consumed[i].header.mcnt
    ensures s1.consumed[i].data == s2.consumed[i].data
  {
    OutputIsContent(cfg, nOut1, memory, out1, acts1, s1, start, ps1, i);
    OutputIsContent(cfg, nOut2, memory, out2, acts2, s2, start, ps2, i);
    ConsumedFromRun(cfg, nOut1, memory, out1, acts1, s1, i);
    ConsumedFromRun(cfg, nOut2, memory, out2, acts2, s2, i);
    SettledOk(cfg, TStart(cfg, memory), Packets(acts1), start, ps1);
    SettledOk(cfg, TStart(cfg, memory), Packets(acts2), start, ps2);
    ContentOrderIrrelevant(cfg, memory, start, ps1, ps2, i);
  }

  lemma SettledOk(cfg: Config, t: Track, all: seq<Packet>, start: int, ps: seq<Packet>)
    requires Shape(cfg, t.net) && PacketsOk(cfg, all) && Settles(cfg, t, all, start, ps)
    ensures PacketsOk(cfg, ps) && 0 <= start
  {
  }

  // ---- headers and samples, in plain terms

  /** The channel fields and source id of a consumed block are those of one packet received, for all but
      the first two blocks; and when no reset came between, of the packet that closed the block two before
      it. The first two blocks carry zeros unless a reset recycled them. */
  lemma OutputHeader(cfg: Config, nOut: nat, memory: seq<Block>, outMemory: seq<Block>, acts: seq<Action>,
                     s: Sys, i: nat)
    requires Reached(cfg, nOut, memory, outMemory, acts, s) && i < |s.consumed|
    ensures i < |s.net.log|
    ensures var h := s.consumed[i].header;
      || (i < 2 && h.chanId == 0 && h.numChan == 0 && h.sid == 0)
      || exists q :: q in Packets(acts) && h.chanId == q.pchan && h.numChan == q.nchan && h.sid == q.sid
    ensures 2 <= i && s.net.log[i - 2].epoch == s.net.log[i].epoch ==>
      var h, q := s.consumed[i].header, s.net.log[i - 2].closer;
      h.chanId == q.pchan && h.numChan == q.nchan && h.sid == q.sid
  {
    ConsumedFromRun(cfg, nOut, memory, outMemory, acts, s, i);
    FilledHeader(cfg, memory, Packets(acts), i);
  }

  /** If all packets come from one source, as at FAST, the output thread reads that source id off every
      block but the first two, and off those too once a reset has recycled them. */
  lemma OutputSource(cfg: Config, nOut: nat, memory: seq<Block>, outMemory: seq<Block>, acts: seq<Action>,
                     s: Sys, i: nat, sid: U64)
    requires Reached(cfg, nOut, memory, outMemory, acts, s) && i < |s.consumed|
    requires forall q :: q in Packets(acts) ==> q.sid == sid
    ensures i < |s.net.log|
    ensures s.net.log[i].past.opener.Some? || 2 <= i ==> s.consumed[i].header.sid == sid
    ensures s.net.log[i].past.opener.None? ==> s.consumed[i].header.sid == 0
  {
    ConsumedFromRun(cfg, nOut, memory, outMemory, acts, s, i);
    FilledHeader(cfg, memory, Packets(acts), i);
  }

  /** The samples themselves: when the packets settle on a stream with no accepted mcnt repeated, word `c`
      of the payload of every packet of the stream whose source id is in range is, in every interleaving,
      word `(mcnt % nm) * rowWords + c` of the consumed block for its mcnt. */
  lemma OutputSamples(cfg: Config, nOut: nat, memory: seq<Block>, outMemory: seq<Block>, acts: seq<Action>, s: Sys,
                      start: int, ps: seq<Packet>, i: nat, j: nat, c: nat)
    requires Reached(cfg, nOut, memory, outMemory, acts, s) && cfg.DataFits() && i < |s.consumed|
    requires Settles(cfg, TStart(cfg, memory), Packets(acts), start, ps)
    requires forall k, l :: 0 <= k < l < |ps| && ps[k].mcnt == ps[l].mcnt ==>
      cfg.nSources <= ps[k].sid || cfg.nSources <= ps[l].sid
    requires j < |ps| && ps[j].sid < cfg.nSources && c < |ps[j].payload|
    requires s.consumed[i].header.mcnt <= ps[j].mcnt < s.consumed[i].header.mcnt + cfg.nm
    ensures var at := ps[j].mcnt % cfg.nm * cfg.rowWords;
      0 <= at && at + c < |s.consumed[i].data| && s.consumed[i].data[at + c] == ps[j].payload[c]
  {
    OutputIsContent(cfg, nOut, memory, outMemory, acts, s, start, ps, i);
    ConsumedFromRun(cfg, nOut, memory, outMemory, acts, s, i);
    SettledOk(cfg, TStart(cfg, memory), Packets(acts), start, ps);
    ContentSamples(cfg, memory, start, ps, i, j, c);
  }
}
