/** Whose channel fields and source id a block's header carries: those of the packet the block was
    initialised for, which is a packet received. */
module Openers {
  import opened Words
  import opened Layout
  import opened Reassembler
  import opened History
  import opened Window

  /** The `i`-th block was initialised for one of the packets `ps`, or at start-up and is one of the first two. */
  ghost predicate OpenerOk(opener: Option<Packet>, i: nat, ps: seq<Packet>) {
    match opener
    case None => i < 2
    case Some(q) => q in ps
  }

  /** Without a reset in between, the `i`-th block was initialised for the packet that closed the block
      two before it. */
  ghost predicate OpenerClosed(opener: Option<Packet>, i: nat, log: seq<Filled>, epoch: nat) {
    2 <= i < |log| + 2 && log[i - 2].epoch == epoch ==> opener == Some(log[i - 2].closer)
  }

  ghost predicate LoggedOpener(log: seq<Filled>, ps: seq<Packet>, i: nat)
    requires i < |log|
  {
    OpenerOk(log[i].past.opener, i, ps) && OpenerClosed(log[i].past.opener, i, log, log[i].epoch)
  }

  ghost predicate LogOpeners(log: seq<Filled>, ps: seq<Packet>, epoch: nat) {
    forall i: nat :: i < |log| ==> LoggedOpener(log, ps, i) && log[i].epoch <= epoch
  }

  ghost predicate OpenersOk(t: Track, ps: seq<Packet>) {
    var fills := |t.log|;
    && LogOpeners(t.log, ps, t.epoch)
    && OpenerOk(t.cur.opener, fills, ps) && OpenerClosed(t.cur.opener, fills, t.log, t.epoch)
    && OpenerOk(t.nxt.opener, fills + 1, ps) && OpenerClosed(t.nxt.opener, fills + 1, t.log, t.epoch)
  }

  /** How one call changes the openers of the two owned blocks. */
  ghost predicate OpenersMove(t: Track, r: Track, p: Packet, move: Move) {
    match move
    case Advance =>
      r.cur.opener == t.nxt.opener && r.nxt.opener == Some(p) && r.log != [] && r.log[|r.log| - 1].closer == p
    case Reset => r.cur.opener == Some(p) == r.nxt.opener
    case Stay => r.cur.opener == t.cur.opener && r.nxt.opener == t.nxt.opener
  }

  lemma StepOpeners(cfg: Config, t: Track, p: Packet)
    requires cfg.SpanFits() && WindowInv(cfg, t) && PacketOk(cfg, p)
    ensures OpenersMove(t, TStep(cfg, t, p), p, MoveOf(cfg, t.net, p))
  {
    if Closes(cfg, t.net, p) {
      CloseMoves(cfg, t, p);
      CloseOpeners(cfg, t, p);
    } else if Resyncs(cfg, t.net, p) {
      ResetStep(cfg, t, p);
    } else {
      StayOpeners(cfg, t, p);
    }
  }

  lemma CloseOpeners(cfg: Config, t: Track, p: Packet)
    requires Shape(cfg, t.net) && Closes(cfg, t.net, p)
    ensures var r := TStep(cfg, t, p); r.cur.opener == t.nxt.opener && r.nxt.opener == Some(p)
  {
  }

  lemma StayOpeners(cfg: Config, t: Track, p: Packet)
    requires Shape(cfg, t.net) && !Closes(cfg, t.net, p) && !Resyncs(cfg, t.net, p)
    ensures var r := TStep(cfg, t, p); r.cur.opener == t.cur.opener && r.nxt.opener == t.nxt.opener
  {
  }

  lemma MorePackets(opener: Option<Packet>, i: nat, ps: seq<Packet>, p: Packet)
    requires OpenerOk(opener, i, ps)
    ensures OpenerOk(opener, i, ps + [p])
  {
  }

  /** One more log entry does not change what was said of the earlier ones, or of the blocks in hand. */
  lemma MoreLog(opener: Option<Packet>, i: nat, log: seq<Filled>, e: Filled, epoch: nat)
    requires OpenerClosed(opener, i, log, epoch) && i < |log| + 2
    ensures OpenerClosed(opener, i, log + [e], epoch)
  {
  }

  lemma LogSamePackets(log: seq<Filled>, ps: seq<Packet>, p: Packet, epoch: nat, epoch': nat)
    requires LogOpeners(log, ps, epoch) && epoch <= epoch'
    ensures LogOpeners(log, ps + [p], epoch')
  {
    forall i: nat | i < |log|
      ensures LoggedOpener(log, ps + [p], i) && log[i].epoch <= epoch'
    {
      assert LoggedOpener(log, ps, i);
      MorePackets(log[i].past.opener, i, ps, p);
    }
  }

  lemma LogGrows(log: seq<Filled>, e: Filled, ps: seq<Packet>, epoch: nat)
    requires LogOpeners(log, ps, epoch) && e.epoch == epoch
    requires OpenerOk(e.past.opener, |log|, ps) && OpenerClosed(e.past.opener, |log|, log, epoch)
    ensures LogOpeners(log + [e], ps, epoch)
  {
    var log' := log + [e];
    forall i: nat | i < |log'|
      ensures LoggedOpener(log', ps, i) && log'[i].epoch <= epoch
    {
      if i < |log| {
        assert LoggedOpener(log, ps, i);
        MoreLog(log[i].past.opener, i, log, e, log[i].epoch);
      } else {
        MoreLog(e.past.opener, i, log, e, epoch);
      }
    }
  }

  lemma AdvanceOpeners(cfg: Config, t: Track, r: Track, ps: seq<Packet>, p: Packet)
    requires Moves(cfg, t, r, Advance) && OpenersMove(t, r, p, Advance) && OpenersOk(t, ps)
    ensures OpenersOk(r, ps + [p])
  {
    var fills, qs := |t.log|, ps + [p];
    var e := r.log[fills];
    assert r.log == t.log + [e];
    LogSamePackets(t.log, ps, p, t.epoch, t.epoch);
    MorePackets(t.cur.opener, fills, ps, p);
    MorePackets(t.nxt.opener, fills + 1, ps, p);
    LogGrows(t.log, e, qs, t.epoch);
    MoreLog(t.nxt.opener, fills + 1, t.log, e, t.epoch);
    assert qs[|ps|] == p;
  }

  lemma ResetOpeners(cfg: Config, t: Track, r: Track, ps: seq<Packet>, p: Packet)
    requires Moves(cfg, t, r, Reset) && OpenersMove(t, r, p, Reset) && OpenersOk(t, ps)
    ensures OpenersOk(r, ps + [p])
  {
    LogSamePackets(t.log, ps, p, t.epoch, r.epoch);
    assert (ps + [p])[|ps|] == p;
    assert 2 <= |t.log| ==> LoggedOpener(t.log, ps, |t.log| - 2) && t.log[|t.log| - 2].epoch <= t.epoch;
    assert 1 <= |t.log| ==> LoggedOpener(t.log, ps, |t.log| - 1) && t.log[|t.log| - 1].epoch <= t.epoch;
  }

  lemma KeptOpeners(cfg: Config, t: Track, r: Track, ps: seq<Packet>, p: Packet)
    requires Moves(cfg, t, r, Stay) && OpenersMove(t, r, p, Stay) && OpenersOk(t, ps)
    ensures OpenersOk(r, ps + [p])
  {
    LogSamePackets(t.log, ps, p, t.epoch, t.epoch);
    MorePackets(t.cur.opener, |t.log|, ps, p);
    MorePackets(t.nxt.opener, |t.log| + 1, ps, p);
  }

  lemma OpenersStep(cfg: Config, t: Track, ps: seq<Packet>, p: Packet)
    requires cfg.SpanFits() && WindowInv(cfg, t) && PacketOk(cfg, p) && OpenersOk(t, ps)
    ensures OpenersOk(TStep(cfg, t, p), ps + [p])
  {
    StepOpeners(cfg, t, p);
    StepMoves(cfg, t, p);
    match MoveOf(cfg, t.net, p)
    case Advance => AdvanceOpeners(cfg, t, TStep(cfg, t, p), ps, p);
    case Reset => ResetOpeners(cfg, t, TStep(cfg, t, p), ps, p);
    case Stay => KeptOpeners(cfg, t, TStep(cfg, t, p), ps, p);
  }

  lemma StartedRun(cfg: Config, memory: seq<Block>, ps: seq<Packet>) returns (t: Track)
    requires cfg.Valid() && cfg.SpanFits() && RingShape(cfg, memory) && PacketsOk(cfg, ps)
    ensures t == TRun(cfg, TStart(cfg, memory), ps) && WindowInv(cfg, t)
  {
    StartInv(cfg, memory);
    RunInv(cfg, TStart(cfg, memory), ps);
    t := TRun(cfg, TStart(cfg, memory), ps);
  }

  /** Over every run from start-up, every block was initialised for a packet received, except the first
      two filled at start-up; and without a reset in between for the packet that closed the block two
      before it. */
  lemma {:induction false} RunOpeners(cfg: Config, memory: seq<Block>, ps: seq<Packet>)
    requires cfg.Valid() && cfg.SpanFits() && RingShape(cfg, memory) && PacketsOk(cfg, ps)
    ensures OpenersOk(TRun(cfg, TStart(cfg, memory), ps), ps)
  {
    if ps != [] {
      var front, p := ps[..|ps| - 1], ps[|ps| - 1];
      RunOpeners(cfg, memory, front);
      var t := StartedRun(cfg, memory, front);
      OpenersStep(cfg, t, front, p);
      assert front + [p] == ps;
    }
  }

  /** Hence what the header of a filled block carries. */
  lemma FilledHeader(cfg: Config, memory: seq<Block>, ps: seq<Packet>, i: nat)
    requires cfg.Valid() && cfg.SpanFits() && RingShape(cfg, memory) && PacketsOk(cfg, ps)
    requires i < |TRun(cfg, TStart(cfg, memory), ps).log|
    ensures var log := TRun(cfg, TStart(cfg, memory), ps).log;
      && LoggedOpener(log, ps, i) && OpenedBy(log[i].block.header, log[i].past.opener)
  {
    RunOpeners(cfg, memory, ps);
    var t := StartedRun(cfg, memory, ps);
    assert EntryOk(cfg, t.log, i);
  }
}
