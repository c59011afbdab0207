/** The net thread: the static block information and the packet loop, working on the shared ring. */
module NetThread {
  import opened Words
  import opened Layout
  import opened Reassembler
  import opened History
  import opened Window
  import opened InputRing

  /** Neither of the two owned blocks is marked filled. */
  ghost predicate OwnedFree(cfg: Config, n: Net, filled: seq<bool>)
    requires cfg.Valid()
  {
    var next := NextBlock(cfg, n.blockI);
    n.blockI < |filled| && next < |filled| && !filled[n.blockI] && !filled[next]
  }

  /** The statuses after a call: the block closed is marked filled, and the block waited for is free. */
  function StatusAfter(cfg: Config, n: Net, p: Packet, filled: seq<bool>): (r: seq<bool>)
    requires cfg.Valid() && |filled| == cfg.nBlocks
    ensures |r| == |filled|
  {
    if !Closes(cfg, n, p) then filled
    else
      var next := NextBlock(cfg, n.blockI);
      filled[FillTarget(cfg, n) := true][NextBlock(cfg, next) := false]
  }

  class NetThread {
    const cfg: Config
    const db: InputDatabuf
    const blockPacketCounter: array<nat>
    var mcntStart: U64
    var mcntLogLate: U64
    var outOfSeqCnt: nat
    var blockI: nat
    var lastFilled: int
    ghost var track: Track
    ghost var boot: seq<Block>

    ghost predicate Allocated()
    {
      && cfg.Valid() && cfg.SpanFits() && cfg.DataFits()
      && db.cfg == cfg && db.Valid() && blockPacketCounter.Length == cfg.nBlocks
    }

    /** The thread's state as a value. */
    ghost function View(): Net
      requires Allocated()
      reads this, blockPacketCounter, db.header, db.missed, db.data
    {
      Net(mcntStart, mcntLogLate, blockI, outOfSeqCnt, blockPacketCounter[..], lastFilled, db.Blocks())
    }

    /** Between calls: the window invariant holds, and the two owned blocks are free. */
    ghost predicate Valid()
      reads this, blockPacketCounter, db.header, db.missed, db.data, db.filled
    {
      && Allocated()
      && track.net == View() && WindowInv(cfg, track) && OwnedFree(cfg, track.net, db.filled[..])
    }

    /** The two-block start-up of the packet loop. */
    constructor (cfg: Config)
      requires cfg.Valid() && cfg.SpanFits() && cfg.DataFits()
      ensures this.cfg == cfg && Valid()
      ensures RingShape(cfg, boot) && track == TStart(cfg, boot)
      ensures fresh(db) && fresh(blockPacketCounter)
      ensures fresh(db.filled) && fresh(db.header) && fresh(db.missed) && fresh(db.data)
    {
      this.cfg := cfg;
      db := new InputDatabuf(cfg);
      blockPacketCounter := new nat[cfg.nBlocks](_ => 0);
      mcntStart, mcntLogLate, outOfSeqCnt, blockI, lastFilled := 0, cfg.nm, 0, 0, -1;
      new;
      StartUp();
    }

    /** Everything as a fresh `block_info_t` and an idle ring have it. */
    ghost predicate Initial()
      requires Allocated()
      reads this, blockPacketCounter, db.filled
    {
      && mcntStart == 0 && mcntLogLate == cfg.nm && outOfSeqCnt == 0 && blockI == 0 && lastFilled == -1
      && forall i :: 0 <= i < cfg.nBlocks ==> blockPacketCounter[i] == 0 && !db.filled[i]
    }

    method StartUp()
      requires Allocated() && Initial()
      modifies `boot, `track, db.header, db.missed
      ensures Valid() && RingShape(cfg, boot) && track == TStart(cfg, boot)
    {
      boot := db.Blocks();
      InitializeFirstBlocks();
      StartOwned(cfg, boot, db.filled[..]);
      track := TStart(cfg, boot);
    }

    method InitializeFirstBlocks()
      requires Allocated() && Initial()
      modifies db.header, db.missed
      ensures View() == Start(cfg, old(db.Blocks()))
    {
      var zero := Packet(0, 0, 0, 0, []);
      db.InitializeBlock(0, zero);
      db.InitializeBlock(cfg.nm, zero);
      assert blockPacketCounter[..] == seq(cfg.nBlocks, _ => 0);
    }

    /** `set_block_filled`: marks the block for `mcntStart` filled, and reports whether either of its
        sequence warnings was printed. Then the window advances by one block. */
    method CloseBlock() returns (netmcnt: U64, warned: bool)
      requires Allocated() && Shape(cfg, View())
      modifies `mcntStart, `blockI, `lastFilled, db.filled
      ensures View() == Close(cfg, old(View()))
      ensures netmcnt == old(mcntStart) && warned == FillWarns(cfg, old(View()))
      ensures db.filled[..] == old(db.filled[..])[FillTarget(cfg, old(View())) := true]
    {
      var b := BlockForMcnt(cfg, mcntStart);
      lastFilled := (lastFilled + 1) % cfg.nBlocks;
      warned := lastFilled != b || b != blockI;
      db.SetFilled(b);
      netmcnt := mcntStart;
      mcntStart := Add64(mcntStart, cfg.nm);
      blockI := NextBlock(cfg, blockI);
    }

    /** Waiting for the block after the new current one, and initialising the block `nm` after the packet. */
    method AcquireNext(p: Packet)
      requires Allocated() && Shape(cfg, View())
      modifies blockPacketCounter, db.filled, db.header, db.missed
      ensures View() == Acquire(cfg, old(View()), p)
      ensures db.filled[..] == old(db.filled[..])[NextBlock(cfg, blockI) := false]
    {
      var newBlockI := NextBlock(cfg, blockI);
      db.BusywaitFree(newBlockI);
      db.InitializeBlock(Add64(p.mcnt, cfg.nm), p);
      blockPacketCounter[newBlockI] := 0;
    }

    /** Counting an in-window packet, then rejecting it for its source id or unpacking it. */
    method FilePacket(p: Packet) returns (ok: bool)
      requires Allocated() && Shape(cfg, View()) && PacketOk(cfg, p)
      modifies `outOfSeqCnt, blockPacketCounter, db.missed, db.data
      ensures View() == File(cfg, old(View()), p) && ok == (p.sid < cfg.nSources)
    {
      var b := BlockForMcnt(cfg, p.mcnt);
      outOfSeqCnt := 0;
      blockPacketCounter[b] := blockPacketCounter[b] + 1;
      assert blockPacketCounter[..] == old(blockPacketCounter[..])[b := old(blockPacketCounter[b]) + 1];
      ok := p.sid < cfg.nSources;
      if ok {
        db.UnpackPacket(b, p);
      }
    }

    /** The packet's mcnt, moved up by whole blocks, fewer than the ring has, into the ring slot already
        owned. Nothing wraps. */
    method ResyncBase(p: Packet) returns (mcnt: U64)
      requires Allocated() && Shape(cfg, View()) && PacketOk(cfg, p)
      ensures mcnt == p.mcnt + cfg.nm * ResyncAhead(cfg, View(), p)
      ensures BlockForMcnt(cfg, mcnt) == blockI
      ensures FirstInSlot(cfg, BlockNumber(cfg, p.mcnt), blockI, BlockNumber(cfg, mcnt))
    {
      ResyncMcntExact(cfg, View(), p);
      ResyncMcntBlock(cfg, View(), p);
      var b := BlockForMcnt(cfg, p.mcnt);
      mcnt := p.mcnt;
      if blockI > b {
        mcnt := Add64(mcnt, Trunc64(cfg.nm * (blockI - b)));
      } else if blockI < b {
        mcnt := Add64(mcnt, Trunc64(cfg.nm * (blockI + cfg.nBlocks - b)));
      }
    }

    /** Re-initialising the current block and its successor, and their packet counters. */
    method RecycleBlocks(p: Packet)
      requires Allocated() && Shape(cfg, View())
      modifies blockPacketCounter, db.header, db.missed
      ensures View() == Recycle(cfg, old(View()), p)
    {
      db.InitializeBlock(mcntStart, p);
      db.InitializeBlock(Add64(mcntStart, cfg.nm), p);
      blockPacketCounter[blockI] := 0;
      blockPacketCounter[NextBlock(cfg, blockI)] := 0;
    }

    /** Where a reset puts the window's start. */
    method ResyncTo(p: Packet) returns (start: U64)
      requires Allocated() && Shape(cfg, View()) && PacketOk(cfg, p)
      ensures start == ResyncStart(cfg, View(), p)
    {
      var mcnt := ResyncBase(p);
      ResyncMcntExact(cfg, View(), p);
      start := RoundDown(cfg, mcnt);
    }

    /** Moving the window onto the packet, on the ring slot owned. */
    method ResyncWindow(p: Packet)
      requires Allocated() && Shape(cfg, View()) && PacketOk(cfg, p)
      modifies `mcntStart, `mcntLogLate, `blockI, blockPacketCounter, db.header, db.missed
      ensures View() == Resync(cfg, old(View()), p)
    {
      mcntStart := ResyncTo(p);
      mcntLogLate := Add64(mcntStart, cfg.nm);
      blockI := BlockForMcnt(cfg, mcntStart);
      assert View() == MoveTo(cfg, old(View()), mcntStart);
      RecycleBlocks(p);
    }

    /** Counting an out-of-sequence packet; one too many resets the window. */
    method DropOutOfSeq(p: Packet)
      requires Allocated() && Shape(cfg, View()) && PacketOk(cfg, p)
      modifies `mcntStart, `mcntLogLate, `outOfSeqCnt, `blockI, blockPacketCounter, db.header, db.missed
      ensures View() == CountOutOfSeq(cfg, old(View()), p)
    {
      outOfSeqCnt := outOfSeqCnt + 1;
      if outOfSeqCnt > cfg.MaxOutOfSeq() {
        ResyncWindow(p);
      }
    }

    /** The body of `process_packet`, from any state of the right shape. `None` stands for -1. */
    method Process(p: Packet) returns (netmcnt: Option<U64>, fillWarned: bool, lateWarned: bool)
      requires Allocated() && Shape(cfg, View()) && PacketOk(cfg, p)
      modifies `mcntStart, `mcntLogLate, `outOfSeqCnt, `blockI, `lastFilled
      modifies blockPacketCounter, db.filled, db.header, db.missed, db.data
      ensures View() == Step(cfg, old(View()), p)
      ensures netmcnt == if Closes(cfg, old(View()), p) && p.sid < cfg.nSources then Some(old(mcntStart)) else None
      ensures fillWarned == (Closes(cfg, old(View()), p) && FillWarns(cfg, old(View())))
      ensures lateWarned == LateWarns(cfg, old(View()), p)
      ensures db.filled[..] == StatusAfter(cfg, old(View()), p, old(db.filled[..]))
    {
      netmcnt, fillWarned, lateWarned := None, false, false;
      var dist := Signed64(Sub64(p.mcnt, mcntStart));
      if 0 <= dist < 2 * cfg.nm {
        if dist >= 3 * (cfg.nm / 2) {
          var closed;
          closed, fillWarned := CloseBlock();
          AcquireNext(p);
          netmcnt := Some(closed);
        }
        var ok := FilePacket(p);
        if !ok {
          netmcnt := None;
        }
      } else if dist < 0 && dist > -cfg.LateThreshold() {
        lateWarned := mcntStart >= mcntLogLate;
      } else {
        DropOutOfSeq(p);
      }
    }

    /** One packet, from a valid state to a valid state. */
    method TakePacket(p: Packet) returns (netmcnt: Option<U64>, lateWarned: bool)
      requires Valid() && PacketOk(cfg, p)
      modifies this, blockPacketCounter, db.filled, db.header, db.missed, db.data
      ensures Valid() && boot == old(boot) && track == TStep(cfg, old(track), p)
      ensures netmcnt == if Closes(cfg, old(View()), p) && p.sid < cfg.nSources then Some(old(mcntStart)) else None
      ensures lateWarned == LateWarns(cfg, old(View()), p)
      ensures db.filled[..] == StatusAfter(cfg, old(View()), p, old(db.filled[..]))
    {
      StepKeepsOwned(cfg, track, p, db.filled[..]);
      var fillWarned;
      netmcnt, fillWarned, lateWarned := Process(p);
      assert !fillWarned;
      track := TStep(cfg, track, p);
    }

    /** `process_packet`. The state moves by one step of the reassembler. If that fills a block, and the
        packet's source id is in range, the call returns the mcnt in the header of the block filled. A
        late packet is reported once a block has been filled in this window's epoch. Neither sequence
        warning is ever printed. No block's status changes but that of the block filled and of the block
        waited for, which the consumer has freed. */
    method ProcessPacket(p: Packet) returns (netmcnt: Option<U64>, lateWarned: bool)
      requires Valid() && PacketOk(cfg, p)
      modifies this, blockPacketCounter, db.filled, db.header, db.missed, db.data
      ensures Valid() && boot == old(boot)
      ensures track == TStep(cfg, old(track), p) && View() == Step(cfg, old(View()), p)
      ensures |old(track).log| <= |track.log| <= |old(track).log| + 1
      ensures forall k :: 0 <= k < |old(track).log| ==> track.log[k] == old(track).log[k]
      ensures netmcnt.Some? <==> |track.log| == |old(track).log| + 1 && p.sid < cfg.nSources
      ensures netmcnt.Some? ==> netmcnt.value == track.log[|old(track).log|].block.header.mcnt == old(mcntStart)
      ensures lateWarned <==>
        p.mcnt < old(mcntStart) < p.mcnt + 2 * (cfg.nm * cfg.nBlocks) && old(mcntStart) >= old(mcntLogLate)
      ensures |track.log| == |old(track).log| ==> db.filled[..] == old(db.filled[..])
      ensures |track.log| > |old(track).log| ==>
        && track.log[|old(track).log|].slot == old(blockI) && track.log[|old(track).log|].closer == p
        && db.filled[..] == old(db.filled[..])[old(blockI) := true][(blockI + 1) % cfg.nBlocks := false]
    {
      ghost var r := StepReports(cfg, track, p, db.filled[..]);
      netmcnt, lateWarned := TakePacket(p);
    }

    /** One packet of a vector: what it returns, if anything, replaces what the earlier ones did. */
    method ProcessNext(p: Packet, sofar: Option<U64>, ghost from: nat) returns (mcnt: Option<U64>)
      requires Valid() && PacketOk(cfg, p) && from <= |track.log| && LastReported(cfg, track.log, from, sofar)
      modifies this, blockPacketCounter, db.filled, db.header, db.missed, db.data
      ensures Valid() && boot == old(boot) && track == TStep(cfg, old(track), p)
      ensures from <= |track.log| && LastReported(cfg, track.log, from, mcnt)
    {
      ghost var log := track.log;
      var this_mcnt, _ := ProcessPacket(p);
      ReportedStep(cfg, log, track.log, from, sofar, this_mcnt);
      mcnt := if this_mcnt.Some? then this_mcnt else sofar;
    }

    /** One pass of the packet loop of `run`: a received vector of packets, one after the other. What the
        statistics are told is the mcnt of the last block filled by a packet with its source id in range,
        if there was one. */
    method ProcessVector(ps: seq<Packet>) returns (mcnt: Option<U64>)
      requires Valid() && PacketsOk(cfg, ps)
      modifies this, blockPacketCounter, db.filled, db.header, db.missed, db.data
      ensures Valid() && boot == old(boot)
      ensures track == TRun(cfg, old(track), ps) && View() == Run(cfg, old(View()), ps)
      ensures mcnt.None? <==>
        forall k :: |old(track).log| <= k < |track.log| ==> cfg.nSources <= track.log[k].closer.sid
      ensures mcnt.Some? ==> exists k ::
        && |old(track).log| <= k < |track.log|
        && mcnt.value == track.log[k].block.header.mcnt && track.log[k].closer.sid < cfg.nSources
        && forall j :: k < j < |track.log| ==> cfg.nSources <= track.log[j].closer.sid
    {
      mcnt := None;
      for i := 0 to |ps|
        invariant Valid() && boot == old(boot)
        invariant track == TRun(cfg, old(track), ps[..i])
        invariant |old(track).log| <= |track.log| && LastReported(cfg, track.log, |old(track).log|, mcnt)
      {
        VectorStep(cfg, old(track), ps, i);
        mcnt := ProcessNext(ps[i], mcnt, |old(track).log|);
      }
      assert ps[..|ps|] == ps;
      ReportedPlainly(cfg, track.log, |old(track).log|, mcnt);
    }
  }

  /** No entry from `from` on was closed by a packet with its source id in range. */
  ghost predicate NoneReported(cfg: Config, log: seq<Filled>, from: nat) {
    forall k :: from <= k < |log| ==> cfg.nSources <= log[k].closer.sid
  }

  /** `mcnt` is that of the last entry, from `from` on, closed by a packet with its source id in range. */
  ghost predicate LastReported(cfg: Config, log: seq<Filled>, from: nat, mcnt: Option<U64>) {
    match mcnt
    case None => NoneReported(cfg, log, from)
    case Some(v) => exists k: nat :: ReportedAt(cfg, log, from, v, k)
  }

  ghost predicate ReportedAt(cfg: Config, log: seq<Filled>, from: nat, v: U64, k: nat) {
    && from <= k < |log| && log[k].closer.sid < cfg.nSources
    && v == log[k].block.header.mcnt && NoneReported(cfg, log, k + 1)
  }

  lemma ReportedStep(cfg: Config, log: seq<Filled>, log': seq<Filled>, from: nat, mcnt: Option<U64>, last: Option<U64>)
    requires from <= |log| <= |log'| <= |log| + 1 && LastReported(cfg, log, from, mcnt)
    requires forall k :: 0 <= k < |log| ==> log'[k] == log[k]
    requires last.Some? <==> |log'| == |log| + 1 && log'[|log|].closer.sid < cfg.nSources
    requires last.Some? ==> last.value == log'[|log|].block.header.mcnt
    ensures LastReported(cfg, log', from, if last.Some? then last else mcnt)
  {
    if last.Some? {
      assert ReportedAt(cfg, log', from, last.value, |log|);
    } else if mcnt.Some? {
      var k: nat :| ReportedAt(cfg, log, from, mcnt.value, k);
      assert ReportedAt(cfg, log', from, mcnt.value, k);
    }
  }

  lemma ReportedPlainly(cfg: Config, log: seq<Filled>, from: nat, mcnt: Option<U64>)
    requires LastReported(cfg, log, from, mcnt)
    ensures mcnt.None? <==> forall k :: from <= k < |log| ==> cfg.nSources <= log[k].closer.sid
    ensures mcnt.Some? ==> exists k ::
      && from <= k < |log|
      && mcnt.value == log[k].block.header.mcnt && log[k].closer.sid < cfg.nSources
      && forall j :: k < j < |log| ==> cfg.nSources <= log[j].closer.sid
  {
    if mcnt.Some? {
      var k: nat :| ReportedAt(cfg, log, from, mcnt.value, k);
      assert cfg.nSources > log[k].closer.sid && mcnt.value == log[k].block.header.mcnt;
    }
  }

  /** One more packet of a vector. */
  lemma VectorStep(cfg: Config, t: Track, ps: seq<Packet>, i: nat)
    requires Shape(cfg, t.net) && i < |ps|
    ensures TRun(cfg, t, ps[..i + 1]) == TStep(cfg, TRun(cfg, t, ps[..i]), ps[i])
  {
    assert ps[..i + 1][..i] == ps[..i];
  }

  /** What a step says of the block it fills, of the statuses, and when it reports a late packet. */
  lemma StepReports(cfg: Config, t: Track, p: Packet, filled: seq<bool>) returns (r: Track)
    requires cfg.SpanFits() && WindowInv(cfg, t) && PacketOk(cfg, p)
    requires |filled| == cfg.nBlocks
    ensures r == TStep(cfg, t, p)
    ensures LogReports(cfg, t, r, p, filled, StatusAfter(cfg, t.net, p, filled))
    ensures Closes(cfg, t.net, p) <==> |r.log| == |t.log| + 1
    ensures LateWarns(cfg, t.net, p) <==>
            p.mcnt < t.net.mcntStart < p.mcnt + 2 * (cfg.nm * cfg.nBlocks) && t.net.mcntStart >= t.net.mcntLogLate
  {
    r := TStep(cfg, t, p);
    MachineArithmeticFaithful(cfg, t, p);
    StepMoves(cfg, t, p);
    StepKeepsSlot(cfg, t, p);
    if Closes(cfg, t.net, p) {
      CloseMoves(cfg, t, p);
    } else {
      assert TStep(cfg, t, p).log == t.log;
    }
  }

  /** A step that adds to the log fills the block it logs, and the block waited for comes back free; no
      other step changes a status. */
  ghost predicate LogReports(cfg: Config, t: Track, r: Track, p: Packet, was: seq<bool>, filled: seq<bool>)
    requires cfg.Valid() && |was| == |filled| == cfg.nBlocks
  {
    && |t.log| <= |r.log| <= |t.log| + 1
    && (forall k :: 0 <= k < |t.log| ==> r.log[k] == t.log[k])
    && (|r.log| == |t.log| ==> filled == was)
    && (|r.log| > |t.log| ==>
          var e := r.log[|t.log|];
          && e.block.header.mcnt == t.net.mcntStart && e.slot == t.net.blockI < cfg.nBlocks && e.closer == p
          && filled == was[t.net.blockI := true][(r.net.blockI + 1) % cfg.nBlocks := false])
  }

  lemma StartOwned(cfg: Config, memory: seq<Block>, filled: seq<bool>)
    requires cfg.Valid() && cfg.SpanFits() && RingShape(cfg, memory)
    requires |filled| == cfg.nBlocks && forall i :: 0 <= i < cfg.nBlocks ==> !filled[i]
    ensures WindowInv(cfg, TStart(cfg, memory)) && OwnedFree(cfg, TStart(cfg, memory).net, filled)
  {
    StartInv(cfg, memory);
  }

  /** Where a step leaves the current block's ring slot. */
  lemma StepKeepsSlot(cfg: Config, t: Track, p: Packet)
    requires cfg.SpanFits() && WindowInv(cfg, t) && PacketOk(cfg, p)
    ensures FillTarget(cfg, t.net) == t.net.blockI
    ensures TStep(cfg, t, p).net.blockI == if Closes(cfg, t.net, p) then NextBlock(cfg, t.net.blockI) else t.net.blockI
  {
    if Resyncs(cfg, t.net, p) {
      ResyncStays(cfg, t, p);
    }
  }

  lemma ResyncStays(cfg: Config, t: Track, p: Packet)
    requires cfg.SpanFits() && Shape(cfg, t.net) && PacketOk(cfg, p) && Resyncs(cfg, t.net, p)
    ensures TStep(cfg, t, p).net.blockI == t.net.blockI
  {
    ResyncKeepsBlocks(cfg, t.net.(outOfSeq := t.net.outOfSeq + 1), p);
    ResetStep(cfg, t, p);
  }

  lemma StepKeepsOwned(cfg: Config, t: Track, p: Packet, filled: seq<bool>)
    requires cfg.SpanFits() && WindowInv(cfg, t) && PacketOk(cfg, p)
    requires |filled| == cfg.nBlocks && OwnedFree(cfg, t.net, filled)
    ensures WindowInv(cfg, TStep(cfg, t, p)) && FillTarget(cfg, t.net) == t.net.blockI
    ensures OwnedFree(cfg, TStep(cfg, t, p).net, StatusAfter(cfg, t.net, p, filled))
    ensures Closes(cfg, t.net, p) ==> !FillWarns(cfg, t.net)
  {
    StepInv(cfg, t, p);
    StepKeepsSlot(cfg, t, p);
    Neighbours(cfg, t.net.blockI);
    Neighbours(cfg, NextBlock(cfg, t.net.blockI));
  }
}
