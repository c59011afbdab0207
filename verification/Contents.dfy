/** What filled blocks hold as a function of the stream and of the ring's memory alone: a block is
    initialised over the data it was last filled with. */
module Contents {
  import opened Words
  import opened DivMod
  import opened Layout
  import opened Reassembler
  import opened History
  import opened Window
  import opened Exactness
  import opened NoLoss
  import opened Placement

  /** The data that the `i`-th block since start-up is initialised over: what the ring's memory held, or
      what the same ring slot was last filled with. */
  function Inherited(cfg: Config, memory: seq<Block>, log: seq<Filled>, i: nat): seq<U64>
    requires RingShape(cfg, memory) && i < |log| + cfg.nBlocks
  {
    if i < cfg.nBlocks then memory[i].data else log[i - cfg.nBlocks].block.data
  }

  ghost predicate LogInherits(cfg: Config, memory: seq<Block>, log: seq<Filled>)
    requires RingShape(cfg, memory)
  {
    forall i :: 0 <= i < |log| ==> log[i].past.base == Inherited(cfg, memory, log, i)
  }

  /** The ring slots of blocks `from` up to a turn after the last one filled hold what those blocks will
      be initialised over. */
  ghost predicate RingInherits(cfg: Config, memory: seq<Block>, blocks: seq<Block>, log: seq<Filled>, from: nat)
    requires cfg.Valid() && RingShape(cfg, memory) && RingShape(cfg, blocks)
  {
    forall i :: from <= i < |log| + cfg.nBlocks ==> SlotInherits(cfg, memory, blocks, log, i)
  }

  ghost predicate SlotInherits(cfg: Config, memory: seq<Block>, blocks: seq<Block>, log: seq<Filled>, i: nat)
    requires cfg.Valid() && RingShape(cfg, memory) && RingShape(cfg, blocks) && i < |log| + cfg.nBlocks
  {
    blocks[RingSlot(cfg, i)].data == Inherited(cfg, memory, log, i)
  }

  /** While the net thread waits for a free block. */
  ghost predicate WaitInherits(cfg: Config, memory: seq<Block>, t: Track)
    requires RingShape(cfg, memory) && Shape(cfg, t.net)
  {
    && LogInherits(cfg, memory, t.log) && RingInherits(cfg, memory, t.net.blocks, t.log, |t.log| + 1)
    && t.cur.base == Inherited(cfg, memory, t.log, |t.log|)
  }

  ghost predicate Inherits(cfg: Config, memory: seq<Block>, t: Track)
    requires RingShape(cfg, memory) && Shape(cfg, t.net)
  {
    && LogInherits(cfg, memory, t.log) && RingInherits(cfg, memory, t.net.blocks, t.log, |t.log| + 2)
    && t.cur.base == Inherited(cfg, memory, t.log, |t.log|)
    && t.nxt.base == Inherited(cfg, memory, t.log, |t.log| + 1)
  }

  /** Slots of blocks less than one turn apart. */
  lemma OwnSlot(cfg: Config, i: nat, j: nat)
    requires cfg.Valid() && i < j < i + cfg.nBlocks
    ensures RingSlot(cfg, i) != RingSlot(cfg, j)
  {
    ModDistinct(i, j, cfg.nBlocks);
  }

  lemma SameSlot(cfg: Config, i: nat)
    requires cfg.Valid()
    ensures RingSlot(cfg, i + cfg.nBlocks) == RingSlot(cfg, i)
    ensures RingSlot(cfg, i + 1) == NextBlock(cfg, RingSlot(cfg, i))
    ensures i < cfg.nBlocks ==> RingSlot(cfg, i) == i
  {
    var n := cfg.nBlocks;
    CellOf(i, n);
    MulStep(n, Rounds(i, n));
    DivModUnique(i + n, n, Rounds(i, n) + 1, Wrap(i, n));
    ModSuccessor(i, n);
    if i < n {
      ModSmall(i, n);
    }
  }

  lemma StartInherits(cfg: Config, memory: seq<Block>)
    requires cfg.Valid() && RingShape(cfg, memory)
    ensures Inherits(cfg, memory, TStart(cfg, memory))
  {
    var t := TStart(cfg, memory);
    assert forall b :: 0 <= b < cfg.nBlocks ==> t.net.blocks[b].data == memory[b].data;
    forall i | 2 <= i < cfg.nBlocks
      ensures SlotInherits(cfg, memory, t.net.blocks, [], i)
    {
      SameSlot(cfg, i);
    }
  }

  /** Filling one more block: it meets what was foretold of it, and the block one turn later inherits it. */
  lemma LogFills(cfg: Config, memory: seq<Block>, log: seq<Filled>, e: Filled)
    requires cfg.Valid() && RingShape(cfg, memory) && LogInherits(cfg, memory, log)
    requires e.past.base == Inherited(cfg, memory, log, |log|)
    ensures LogInherits(cfg, memory, log + [e])
  {
  }

  lemma RingFills(cfg: Config, memory: seq<Block>, blocks: seq<Block>, log: seq<Filled>, e: Filled)
    requires cfg.Valid() && RingShape(cfg, memory) && RingShape(cfg, blocks)
    requires RingInherits(cfg, memory, blocks, log, |log| + 2)
    requires blocks[RingSlot(cfg, |log|)] == e.block
    ensures RingInherits(cfg, memory, blocks, log + [e], |log| + 2)
  {
    forall i | |log| + 2 <= i < |log| + 1 + cfg.nBlocks
      ensures SlotInherits(cfg, memory, blocks, log + [e], i)
    {
      if i == |log| + cfg.nBlocks {
        SameSlot(cfg, |log|);
      } else {
        assert SlotInherits(cfg, memory, blocks, log, i);
      }
    }
  }

  lemma CloseInherits(cfg: Config, memory: seq<Block>, t: Track, p: Packet)
    requires cfg.Valid() && RingShape(cfg, memory) && Shape(cfg, t.net) && Inherits(cfg, memory, t)
    requires FillTarget(cfg, t.net) == RingSlot(cfg, |t.log|)
    ensures WaitInherits(cfg, memory, TClose(cfg, t, p))
  {
    var r := TClose(cfg, t, p);
    var e := r.log[|t.log|];
    assert r.log == t.log + [e];
    LogFills(cfg, memory, t.log, e);
    RingFills(cfg, memory, t.net.blocks, t.log, e);
  }

  /** Rings with the same data inherit alike. */
  lemma RingKept(cfg: Config, memory: seq<Block>, blocks: seq<Block>, blocks': seq<Block>, log: seq<Filled>,
                 from: nat, from': nat)
    requires cfg.Valid() && RingShape(cfg, memory) && RingShape(cfg, blocks) && RingShape(cfg, blocks')
    requires RingInherits(cfg, memory, blocks, log, from) && from <= from'
    requires forall i :: from' <= i < |log| + cfg.nBlocks ==> SameData(blocks, blocks', RingSlot(cfg, i))
    ensures RingInherits(cfg, memory, blocks', log, from')
  {
    forall i | from' <= i < |log| + cfg.nBlocks
      ensures SlotInherits(cfg, memory, blocks', log, i)
    {
      assert SlotInherits(cfg, memory, blocks, log, i);
    }
  }

  ghost predicate SameData(blocks: seq<Block>, blocks': seq<Block>, b: nat) {
    b < |blocks| == |blocks'| && blocks[b].data == blocks'[b].data
  }

  lemma AcquireInherits(cfg: Config, memory: seq<Block>, t: Track, p: Packet)
    requires cfg.Valid() && RingShape(cfg, memory) && Shape(cfg, t.net) && WaitInherits(cfg, memory, t)
    requires t.net.blockI == RingSlot(cfg, |t.log|)
    ensures Inherits(cfg, memory, TAcquire(cfg, t, p))
  {
    var r, next := TAcquire(cfg, t, p), |t.log| + 1;
    SameSlot(cfg, |t.log|);
    assert SlotInherits(cfg, memory, t.net.blocks, t.log, next);
    RingKept(cfg, memory, t.net.blocks, r.net.blocks, t.log, next, next + 1);
  }

  /** With `fills` blocks filled, ring slot `b` is one of the two owned. */
  predicate OwnedSlot(cfg: Config, fills: nat, b: nat)
    requires cfg.Valid()
  {
    b == RingSlot(cfg, fills) || b == RingSlot(cfg, fills + 1)
  }

  lemma FileInherits(cfg: Config, memory: seq<Block>, t: Track, p: Packet)
    requires cfg.Valid() && RingShape(cfg, memory) && Shape(cfg, t.net) && Inherits(cfg, memory, t)
    requires OwnedSlot(cfg, |t.log|, BlockForMcnt(cfg, p.mcnt))
    ensures Inherits(cfg, memory, TFile(cfg, t, p))
  {
    var r, fills := TFile(cfg, t, p), |t.log|;
    forall i | fills + 2 <= i < fills + cfg.nBlocks
      ensures SameData(t.net.blocks, r.net.blocks, RingSlot(cfg, i))
    {
      OwnSlot(cfg, fills, i);
      OwnSlot(cfg, fills + 1, i);
    }
    RingKept(cfg, memory, t.net.blocks, r.net.blocks, t.log, fills + 2, fills + 2);
  }

  /** The ring slot of an in-window packet, by position in the sequence of fills. */
  lemma FileTarget(cfg: Config, t: Track, p: Packet)
    requires cfg.SpanFits() && CoreInv(cfg, t) && PacketOk(cfg, p)
    requires t.net.mcntStart <= p.mcnt < t.net.mcntStart + 2 * cfg.nm
    ensures OwnedSlot(cfg, |t.log|, BlockForMcnt(cfg, p.mcnt))
  {
    TargetBlock(cfg, t, p);
    SameSlot(cfg, |t.log|);
  }

  lemma AdvanceInherits(cfg: Config, memory: seq<Block>, t: Track, p: Packet)
    requires cfg.SpanFits() && RingShape(cfg, memory) && WindowInv(cfg, t) && Inherits(cfg, memory, t)
    requires PacketOk(cfg, p) && Closes(cfg, t.net, p)
    ensures Inherits(cfg, memory, TStep(cfg, t, p))
  {
    var c := TClose(cfg, t, p);
    CloseInv(cfg, t, p);
    CloseInherits(cfg, memory, t, p);
    AcquireInherits(cfg, memory, c, p);
    FileTarget(cfg, c, p);
    FileInherits(cfg, memory, TAcquire(cfg, c, p), p);
  }

  lemma StepInherits(cfg: Config, memory: seq<Block>, t: Track, p: Packet)
    requires cfg.SpanFits() && RingShape(cfg, memory) && WindowInv(cfg, t) && Inherits(cfg, memory, t)
    requires PacketOk(cfg, p) && !Resyncs(cfg, t.net, p)
    ensures Inherits(cfg, memory, TStep(cfg, t, p))
  {
    MachineArithmeticFaithful(cfg, t, p);
    if Closes(cfg, t.net, p) {
      AdvanceInherits(cfg, memory, t, p);
    } else if Classify(cfg, t.net, p).InWindow? {
      FileTarget(cfg, t, p);
      FileInherits(cfg, memory, t, p);
    }
  }

  /** Resets alone raise the epoch. */
  lemma {:induction false} EpochGrows(cfg: Config, t: Track, ps: seq<Packet>)
    requires Shape(cfg, t.net)
    ensures t.epoch <= TRun(cfg, t, ps).epoch
  {
    if ps != [] {
      EpochGrows(cfg, t, ps[..|ps| - 1]);
    }
  }

  /** Without a reset, every block is initialised over what its ring slot was last filled with. */
  lemma {:induction false} RunInherits(cfg: Config, memory: seq<Block>, t: Track, ps: seq<Packet>)
    requires cfg.SpanFits() && RingShape(cfg, memory) && WindowInv(cfg, t) && PacketsOk(cfg, ps)
    requires Inherits(cfg, memory, t) && TRun(cfg, t, ps).epoch == t.epoch
    ensures Inherits(cfg, memory, TRun(cfg, t, ps))
  {
    if ps != [] {
      var front, p := ps[..|ps| - 1], ps[|ps| - 1];
      EpochGrows(cfg, t, front);
      RunInv(cfg, t, front);
      StepMoves(cfg, TRun(cfg, t, front), p);
      RunInherits(cfg, memory, t, front);
      StepInherits(cfg, memory, TRun(cfg, t, front), p);
    }
  }

  /** A reset before any block was given a packet leaves the inheritance as it is. */
  lemma ResetInherits(cfg: Config, memory: seq<Block>, t: Track, q: Packet)
    requires cfg.SpanFits() && RingShape(cfg, memory) && WindowInv(cfg, t) && PacketOk(cfg, q)
    requires Inherits(cfg, memory, t) && Resyncs(cfg, t.net, q)
    requires t.cur.filed == [] == t.nxt.filed
    ensures Inherits(cfg, memory, TStep(cfg, t, q))
  {
    var r := TStep(cfg, t, q);
    NothingFiled(cfg, t.net.blocks[t.net.blockI], t.cur);
    NothingFiled(cfg, t.net.blocks[NextBlock(cfg, t.net.blockI)], t.nxt);
    ResyncMoves(cfg, t, q);
    ResetKeepsData(cfg, t, q);
    RingKept(cfg, memory, t.net.blocks, r.net.blocks, t.log, |t.log| + 2, |t.log| + 2);
  }

  lemma NothingFiled(cfg: Config, b: Block, past: Past)
    requires cfg.Valid() && |b.data| == |past.base| && DataOk(cfg, b.data, past) && past.filed == []
    ensures b.data == past.base
  {
    DataIs(cfg, b.data, past);
  }

  lemma ResetKeepsData(cfg: Config, t: Track, q: Packet)
    requires cfg.SpanFits() && Shape(cfg, t.net) && PacketOk(cfg, q) && Resyncs(cfg, t.net, q)
    ensures var r, next := TStep(cfg, t, q), NextBlock(cfg, t.net.blockI);
      && (forall b :: 0 <= b < cfg.nBlocks ==> SameData(t.net.blocks, r.net.blocks, b))
      && r.cur.base == t.net.blocks[t.net.blockI].data && r.nxt.base == t.net.blocks[next].data
  {
    var n := t.net.(outOfSeq := t.net.outOfSeq + 1);
    ResyncKeepsBlocks(cfg, n, q);
    ResetStep(cfg, t, q);
  }

  // ---- contents in closed form

  /** The data of the `i`-th block of a stream from `start` on, as a function of the stream and the
      ring's memory: the stream's accepted packets for the block, over the block one turn earlier. */
  function Content(cfg: Config, memory: seq<Block>, start: int, ps: seq<Packet>, i: nat): seq<U64>
    requires cfg.Valid() && RingShape(cfg, memory)
    decreases i, 1
  {
    PlaceAll(cfg, LaidOver(cfg, memory, start, ps, i), Accepted(cfg, InRange(ps, BlockStart(cfg, start, i), cfg.nm)))
  }

  /** What the `i`-th block of a stream is laid over. */
  function LaidOver(cfg: Config, memory: seq<Block>, start: int, ps: seq<Packet>, i: nat): seq<U64>
    requires cfg.Valid() && RingShape(cfg, memory)
    decreases i, 0
  {
    if i < cfg.nBlocks then memory[i].data else Content(cfg, memory, start, ps, i - cfg.nBlocks)
  }

  /** Filled block `i` is the stream's block that begins at `m`: its mcnt, and the stream's packets for
      it over what it was initialised with. */
  ghost predicate HoldsStream(cfg: Config, m: int, ps: seq<Packet>, e: Filled)
    requires cfg.Valid()
  {
    && e.block.header.mcnt == m
    && e.block.data == PlaceAll(cfg, e.past.base, Accepted(cfg, InRange(ps, m, cfg.nm)))
  }

  lemma RunHoldsStream(cfg: Config, t: Track, ps: seq<Packet>, r: Track, i: nat)
    requires WindowInv(cfg, r) && NothingLost(cfg, t, ps, r) && |t.log| <= i < |r.log|
    ensures HoldsStream(cfg, BlockStart(cfg, t.net.mcntStart, i - |t.log|), ps, r.log[i])
  {
    FilledHoldsStream(cfg, t, ps, r, i);
  }

  /** The log's `i`-th block is the stream's `i`-th. */
  ghost predicate HoldsBlock(cfg: Config, start: int, ps: seq<Packet>, log: seq<Filled>, i: nat)
    requires cfg.Valid()
  {
    i < |log| && HoldsStream(cfg, BlockStart(cfg, start, i), ps, log[i])
  }

  lemma {:induction false} LogIsContent(cfg: Config, memory: seq<Block>, start: int, ps: seq<Packet>,
                                        log: seq<Filled>, i: nat)
    requires cfg.Valid() && RingShape(cfg, memory) && LogInherits(cfg, memory, log) && i < |log|
    requires forall j: nat :: j <= i ==> HoldsBlock(cfg, start, ps, log, j)
    ensures log[i].block.data == Content(cfg, memory, start, ps, i)
  {
    assert HoldsBlock(cfg, start, ps, log, i);
    if i >= cfg.nBlocks {
      LogIsContent(cfg, memory, start, ps, log, i - cfg.nBlocks);
    }
  }

  /** All the blocks of a run that lost nothing and inherited its ring's data, in closed form. */
  lemma RunIsContent(cfg: Config, memory: seq<Block>, t: Track, ps: seq<Packet>, r: Track, i: nat)
    requires RingShape(cfg, memory) && WindowInv(cfg, r) && NothingLost(cfg, t, ps, r) && t.log == []
    requires LogInherits(cfg, memory, r.log) && i < |r.log|
    ensures r.log[i].block.header.mcnt == BlockStart(cfg, t.net.mcntStart, i)
    ensures r.log[i].block.data == Content(cfg, memory, t.net.mcntStart, ps, i)
  {
    forall j: nat | j <= i
      ensures HoldsBlock(cfg, t.net.mcntStart, ps, r.log, j)
    {
      RunHoldsStream(cfg, t, ps, r, j);
    }
    assert HoldsBlock(cfg, t.net.mcntStart, ps, r.log, i);
    LogIsContent(cfg, memory, t.net.mcntStart, ps, r.log, i);
  }

  // ---- the order of a whole stream does not matter

  /** No two accepted packets are for the same place: same mcnt and, at Arecibo, same beam. */
  ghost predicate Unambiguous(cfg: Config, ps: seq<Packet>) {
    forall i, j :: 0 <= i < j < |ps| && ValidSid(cfg, ps[i]) && ValidSid(cfg, ps[j]) && ps[i].mcnt == ps[j].mcnt ==>
      cfg.instrument.S6? && ps[i].sid != ps[j].sid
  }

  lemma AcceptedAppend(cfg: Config, ps: seq<Packet>, p: Packet)
    ensures Accepted(cfg, ps + [p]) == Accepted(cfg, ps) + if ValidSid(cfg, p) then [p] else []
  {
    var qs := ps + [p];
    assert qs[..|qs| - 1] == ps;
  }

  lemma AcceptedRangeStep(cfg: Config, ps: seq<Packet>, lo: int)
    requires ps != []
    ensures var q := ps[|ps| - 1];
      Accepted(cfg, InRange(ps, lo, cfg.nm))
      == Accepted(cfg, InRange(ps[..|ps| - 1], lo, cfg.nm))
         + if lo <= q.mcnt < lo + cfg.nm && ValidSid(cfg, q) then [q] else []
  {
    AcceptedAppend(cfg, InRange(ps[..|ps| - 1], lo, cfg.nm), ps[|ps| - 1]);
  }

  lemma OccursAppend(ps: seq<Packet>, q: Packet, p: Packet)
    ensures multiset(ps + [q])[p] == multiset(ps)[p] + if p == q then 1 else 0
  {
  }

  /** How often a packet occurs among the accepted ones of a range. */
  lemma {:induction false} OccursInRange(cfg: Config, ps: seq<Packet>, lo: int, p: Packet)
    ensures multiset(Accepted(cfg, InRange(ps, lo, cfg.nm)))[p]
         == if lo <= p.mcnt < lo + cfg.nm && ValidSid(cfg, p) then multiset(ps)[p] else 0
  {
    if ps != [] {
      var front, q := ps[..|ps| - 1], ps[|ps| - 1];
      assert ps == front + [q];
      OccursInRange(cfg, front, lo, p);
      OccursAppend(front, q, p);
      OccursAppend(Accepted(cfg, InRange(front, lo, cfg.nm)), q, p);
      AcceptedRangeStep(cfg, ps, lo);
    }
  }

  lemma AcceptedSame(cfg: Config, ps: seq<Packet>, qs: seq<Packet>, lo: int)
    requires multiset(ps) == multiset(qs)
    ensures multiset(Accepted(cfg, InRange(ps, lo, cfg.nm))) == multiset(Accepted(cfg, InRange(qs, lo, cfg.nm)))
  {
    forall p: Packet
      ensures multiset(Accepted(cfg, InRange(ps, lo, cfg.nm)))[p] == multiset(Accepted(cfg, InRange(qs, lo, cfg.nm)))[p]
    {
      OccursInRange(cfg, ps, lo, p);
      OccursInRange(cfg, qs, lo, p);
    }
  }

  /** Accepted packets of a range come from the stream. */
  lemma {:induction false} AcceptedFrom(cfg: Config, ps: seq<Packet>, lo: int, i: nat) returns (j: nat)
    requires i < |Accepted(cfg, InRange(ps, lo, cfg.nm))|
    ensures j < |ps| && Accepted(cfg, InRange(ps, lo, cfg.nm))[i] == ps[j]
    ensures ValidSid(cfg, ps[j]) && lo <= ps[j].mcnt < lo + cfg.nm
  {
    var front := ps[..|ps| - 1];
    AcceptedRangeStep(cfg, ps, lo);
    if i < |Accepted(cfg, InRange(front, lo, cfg.nm))| {
      j := AcceptedFrom(cfg, front, lo, i);
    } else {
      j := |ps| - 1;
    }
  }

  lemma {:induction false} RangeDistinct(cfg: Config, ps: seq<Packet>, lo: nat)
    requires cfg.Valid() && Unambiguous(cfg, ps)
    ensures DistinctSlots(cfg, Accepted(cfg, InRange(ps, lo, cfg.nm)))
  {
    if ps != [] {
      var front, p := ps[..|ps| - 1], ps[|ps| - 1];
      RangeDistinct(cfg, front, lo);
      AcceptedRangeStep(cfg, ps, lo);
      if lo <= p.mcnt < lo + cfg.nm && ValidSid(cfg, p) {
        NewSlot(cfg, ps, lo);
      }
    }
  }

  /** The last packet of an unambiguous stream takes a slot of its own. */
  lemma NewSlot(cfg: Config, ps: seq<Packet>, lo: nat)
    requires cfg.Valid() && Unambiguous(cfg, ps) && ps != []
    requires lo <= ps[|ps| - 1].mcnt < lo + cfg.nm && ValidSid(cfg, ps[|ps| - 1])
    ensures SlotUnused(cfg, Accepted(cfg, InRange(ps[..|ps| - 1], lo, cfg.nm)), Slot(cfg, ps[|ps| - 1]))
  {
    var front, p := ps[..|ps| - 1], ps[|ps| - 1];
    var some := Accepted(cfg, InRange(front, lo, cfg.nm));
    forall i | 0 <= i < |some|
      ensures Slot(cfg, some[i]) != Slot(cfg, p)
    {
      var j := AcceptedFrom(cfg, front, lo, i);
      SlotsWithinBlock(cfg, lo, front[j], p);
    }
  }

  lemma {:induction false} RangeOfOk(cfg: Config, ps: seq<Packet>, lo: int)
    requires PacketsOk(cfg, ps)
    ensures PacketsOk(cfg, InRange(ps, lo, cfg.nm))
  {
    if ps != [] {
      RangeOfOk(cfg, ps[..|ps| - 1], lo);
    }
  }

  /** The two streams give the block that begins at `lo` the same data, over the same data. */
  ghost predicate SameBlock(cfg: Config, ps: seq<Packet>, qs: seq<Packet>, lo: nat)
    requires cfg.Valid()
  {
    forall base: seq<U64> :: PlaceAll(cfg, base, Accepted(cfg, InRange(ps, lo, cfg.nm)))
                          == PlaceAll(cfg, base, Accepted(cfg, InRange(qs, lo, cfg.nm)))
  }

  lemma BlockOrderIrrelevant(cfg: Config, ps: seq<Packet>, qs: seq<Packet>, lo: nat)
    requires cfg.Valid() && PacketsOk(cfg, ps) && PacketsOk(cfg, qs)
    requires multiset(ps) == multiset(qs) && Unambiguous(cfg, ps)
    ensures SameBlock(cfg, ps, qs, lo)
  {
    var some, same := InRange(ps, lo, cfg.nm), InRange(qs, lo, cfg.nm);
    RangeOfOk(cfg, ps, lo);
    RangeOfOk(cfg, qs, lo);
    AcceptedOk(cfg, some);
    AcceptedOk(cfg, same);
    AcceptedSame(cfg, ps, qs, lo);
    RangeDistinct(cfg, ps, lo);
    forall base: seq<U64>
      ensures PlaceAll(cfg, base, Accepted(cfg, some)) == PlaceAll(cfg, base, Accepted(cfg, same))
    {
      OrderIndependent(cfg, base, Accepted(cfg, some), Accepted(cfg, same));
    }
  }

  lemma SameOver(cfg: Config, memory: seq<Block>, start: int, ps: seq<Packet>, qs: seq<Packet>, i: nat)
    requires cfg.Valid() && RingShape(cfg, memory) && 0 <= start && SameBlock(cfg, ps, qs, BlockStart(cfg, start, i))
    requires LaidOver(cfg, memory, start, ps, i) == LaidOver(cfg, memory, start, qs, i)
    ensures Content(cfg, memory, start, ps, i) == Content(cfg, memory, start, qs, i)
  {
  }

  lemma {:induction false} SameContent(cfg: Config, memory: seq<Block>, start: int,
                                       ps: seq<Packet>, qs: seq<Packet>, i: nat)
    requires cfg.Valid() && RingShape(cfg, memory) && 0 <= start
    requires forall lo: nat :: SameBlock(cfg, ps, qs, lo)
    ensures Content(cfg, memory, start, ps, i) == Content(cfg, memory, start, qs, i)
    decreases i
  {
    if i >= cfg.nBlocks {
      SameContent(cfg, memory, start, ps, qs, i - cfg.nBlocks);
    }
    SameOver(cfg, memory, start, ps, qs, i);
  }

  /** Two streams of the same packets, in whatever orders, give every block the same data. */
  lemma ContentOrderIrrelevant(cfg: Config, memory: seq<Block>, start: int, ps: seq<Packet>, qs: seq<Packet>, i: nat)
    requires cfg.Valid() && RingShape(cfg, memory) && PacketsOk(cfg, ps) && PacketsOk(cfg, qs) && 0 <= start
    requires multiset(ps) == multiset(qs) && Unambiguous(cfg, ps)
    ensures Content(cfg, memory, start, ps, i) == Content(cfg, memory, start, qs, i)
  {
    forall lo: nat
      ensures SameBlock(cfg, ps, qs, lo)
    {
      BlockOrderIrrelevant(cfg, ps, qs, lo);
    }
    SameContent(cfg, memory, start, ps, qs, i);
  }

  // ---- the samples of one block (FAST)

  lemma {:induction false} AcceptedRangeHas(cfg: Config, ps: seq<Packet>, lo: int, j: nat) returns (i: nat)
    requires j < |ps| && ValidSid(cfg, ps[j]) && lo <= ps[j].mcnt < lo + cfg.nm
    ensures i < |Accepted(cfg, InRange(ps, lo, cfg.nm))| && Accepted(cfg, InRange(ps, lo, cfg.nm))[i] == ps[j]
  {
    var front := ps[..|ps| - 1];
    AcceptedRangeStep(cfg, ps, lo);
    if j < |front| {
      i := AcceptedRangeHas(cfg, front, lo, j);
      assert ps[j] == front[j];
    } else {
      i := |Accepted(cfg, InRange(front, lo, cfg.nm))|;
    }
  }

  lemma RangeOfAccepted(cfg: Config, ps: seq<Packet>, lo: nat)
    requires cfg.Valid() && PacketsOk(cfg, ps)
    ensures RangeOk(cfg, Accepted(cfg, InRange(ps, lo, cfg.nm)), lo)
  {
    var acc := Accepted(cfg, InRange(ps, lo, cfg.nm));
    forall i | 0 <= i < |acc|
      ensures PacketOk(cfg, acc[i]) && lo <= acc[i].mcnt < lo + cfg.nm
    {
      var j := AcceptedFrom(cfg, ps, lo, i);
    }
  }

  lemma {:induction false} ContentLength(cfg: Config, memory: seq<Block>, start: int, ps: seq<Packet>, i: nat)
    requires cfg.Valid() && RingShape(cfg, memory)
    ensures |Content(cfg, memory, start, ps, i)| == cfg.blockWords == |LaidOver(cfg, memory, start, ps, i)|
    decreases i
  {
    if i >= cfg.nBlocks {
      ContentLength(cfg, memory, start, ps, i - cfg.nBlocks);
    }
  }

  lemma RowOfPacket(cfg: Config, base: seq<U64>, ps: seq<Packet>, lo: nat, j: nat, c: nat)
    requires cfg.Valid() && cfg.instrument.Fast? && cfg.DataFits() && |base| == cfg.blockWords
    requires PacketsOk(cfg, ps) && Unambiguous(cfg, ps)
    requires j < |ps| && ps[j].sid < cfg.nSources && c < |ps[j].payload| && lo <= ps[j].mcnt < lo + cfg.nm
    ensures var at := ps[j].mcnt % cfg.nm * cfg.rowWords;
      0 <= at && at + c < |base|
      && PlaceAll(cfg, base, Accepted(cfg, InRange(ps, lo, cfg.nm)))[at + c] == ps[j].payload[c]
  {
    var acc := Accepted(cfg, InRange(ps, lo, cfg.nm));
    var i := AcceptedRangeHas(cfg, ps, lo, j);
    RangeOfAccepted(cfg, ps, lo);
    RangeDistinct(cfg, ps, lo);
    var at := ps[j].mcnt % cfg.nm * cfg.rowWords;
    PayloadWord(cfg, acc[i], c);
    WordPlaced(cfg, lo, base, acc, i, at + c);
  }

  lemma ContentSamples(cfg: Config, memory: seq<Block>, start: int, ps: seq<Packet>, i: nat, j: nat, c: nat)
    requires cfg.Valid() && cfg.instrument.Fast? && cfg.DataFits() && RingShape(cfg, memory) && 0 <= start
    requires PacketsOk(cfg, ps)
    requires forall k, l :: 0 <= k < l < |ps| && ps[k].mcnt == ps[l].mcnt ==>
      cfg.nSources <= ps[k].sid || cfg.nSources <= ps[l].sid
    requires j < |ps| && ps[j].sid < cfg.nSources && c < |ps[j].payload|
    requires var lo := BlockStart(cfg, start, i); lo <= ps[j].mcnt < lo + cfg.nm
    ensures var at := ps[j].mcnt % cfg.nm * cfg.rowWords;
      0 <= at && at + c < |Content(cfg, memory, start, ps, i)|
      && Content(cfg, memory, start, ps, i)[at + c] == ps[j].payload[c]
  {
    ContentLength(cfg, memory, start, ps, i);
    RowOfPacket(cfg, LaidOver(cfg, memory, start, ps, i), ps, BlockStart(cfg, start, i), j, c);
  }
}
