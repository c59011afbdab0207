/** The window invariant: what every call of `process_packet` keeps, for every packet. */
module Window {
  import opened Words
  import opened DivMod
  import opened Layout
  import opened Reassembler
  import opened History

  // ---- ring arithmetic

  /** The block `j` blocks after an aligned start. */
  lemma BlockAfter(cfg: Config, start: nat, j: nat, m: nat)
    requires cfg.Valid() && Phase(cfg, start) == 0
    requires start + j * cfg.nm <= m < start + j * cfg.nm + cfg.nm
    ensures BlockNumber(cfg, m) == BlockNumber(cfg, start) + j
    ensures m - Phase(cfg, m) == start + j * cfg.nm
  {
    var k := BlockNumber(cfg, start);
    assert start == cfg.nm * k;
    assert cfg.nm * (k + j) == cfg.nm * k + j * cfg.nm;
    DivModUnique(m, cfg.nm, k + j, m - start - j * cfg.nm);
  }

  /** Which of the blocks from an aligned start a nearby mcnt falls in. */
  lemma NearbyBlock(cfg: Config, start: U64, m: U64)
    requires cfg.Valid() && Phase(cfg, start) == 0 && start <= m < start + 3 * cfg.nm
    ensures var b := BlockForMcnt(cfg, start);
      if m < start + cfg.nm then BlockForMcnt(cfg, m) == b && RoundDown(cfg, m) == start
      else if m < start + 2 * cfg.nm
      then BlockForMcnt(cfg, m) == NextBlock(cfg, b) && RoundDown(cfg, m) == start + cfg.nm
      else BlockForMcnt(cfg, m) == NextBlock(cfg, NextBlock(cfg, b)) && RoundDown(cfg, m) == start + 2 * cfg.nm
  {
    var k := BlockNumber(cfg, start);
    ModSuccessor(k, cfg.nBlocks);
    ModSuccessor(k + 1, cfg.nBlocks);
    if m < start + cfg.nm {
      BlockAfter(cfg, start, 0, m);
    } else if m < start + 2 * cfg.nm {
      BlockAfter(cfg, start, 1, m);
    } else {
      BlockAfter(cfg, start, 2, m);
    }
  }

  lemma Neighbours(cfg: Config, b: nat)
    requires cfg.Valid() && b < cfg.nBlocks
    ensures NextBlock(cfg, b) != b
    ensures NextBlock(cfg, b) == if b == cfg.nBlocks - 1 then 0 else b + 1
  {
    ModSuccessor(b, cfg.nBlocks);
    ModSmall(b, cfg.nBlocks);
  }

  // ---- the invariant

  /** Accepted packets charged to missed-packet counter `c`. */
  function Charged(cfg: Config, ps: seq<Packet>, c: nat): (k: nat)
    requires cfg.Valid()
    ensures k <= |ps|
  {
    if ps == [] then 0
    else
      var p := ps[|ps| - 1];
      Charged(cfg, ps[..|ps| - 1], c) + if ValidSid(cfg, p) && Counter(cfg, p) == c then 1 else 0
  }

  ghost predicate CounterOk(cfg: Config, missed: seq<U64>, filed: seq<Packet>, c: nat)
    requires cfg.Valid() && c < |missed|
  {
    missed[c] == Trunc64(cfg.nm - Charged(cfg, filed, c))
  }

  /** Every missed-packet counter is `nm` less the packets charged to it, as a 64-bit word. */
  ghost predicate MissedOk(cfg: Config, missed: seq<U64>, filed: seq<Packet>)
    requires cfg.Valid()
  {
    |missed| == cfg.nBors && forall c: nat :: c < cfg.nBors ==> CounterOk(cfg, missed, filed, c)
  }

  /** Every word of a block's data is as the accepted packets left it, over the data at initialisation. */
  ghost predicate DataOk(cfg: Config, data: seq<U64>, past: Past)
    requires cfg.Valid() && |data| == |past.base|
  {
    forall w: nat :: w < |data| ==> WordOk(cfg, data, past, w)
  }

  ghost predicate WordOk(cfg: Config, data: seq<U64>, past: Past, w: nat)
    requires cfg.Valid() && w < |data| == |past.base|
  {
    data[w] == PlaceAll(cfg, past.base, Accepted(cfg, past.filed))[w]
  }

  lemma DataIs(cfg: Config, data: seq<U64>, past: Past)
    requires cfg.Valid() && |data| == |past.base|
    ensures DataOk(cfg, data, past) <==> data == PlaceAll(cfg, past.base, Accepted(cfg, past.filed))
  {
    if DataOk(cfg, data, past) {
      forall w: nat | w < |data|
        ensures data[w] == PlaceAll(cfg, past.base, Accepted(cfg, past.filed))[w]
      {
        assert WordOk(cfg, data, past, w);
      }
    }
  }

  /** The packets counted in a block are in its mcnt range. */
  ghost predicate RangeOk(cfg: Config, filed: seq<Packet>, start: int) {
    forall i :: 0 <= i < |filed| ==> PacketOk(cfg, filed[i]) && start <= filed[i].mcnt < start + cfg.nm
  }

  /** The header carries the channel fields and source id of the packet the block was initialised for. */
  ghost predicate OpenedBy(h: Header, opener: Option<Packet>) {
    match opener
    case None => h.chanId == 0 && h.numChan == 0 && h.sid == 0
    case Some(q) => h.chanId == q.pchan && h.numChan == q.nchan && h.sid == q.sid
  }

  /** What a block, its packet counter and its past say about one another. */
  ghost predicate BlockOk(cfg: Config, b: Block, counter: nat, past: Past, start: int)
    requires cfg.Valid()
  {
    && BlockShape(cfg, b) && |past.base| == cfg.blockWords == |b.data|
    && b.header.mcnt == start
    && OpenedBy(b.header, past.opener)
    && counter == |past.filed|
    && DataOk(cfg, b.data, past)
    && MissedOk(cfg, b.header.missed, past.filed)
    && RangeOk(cfg, past.filed, start)
  }

  ghost predicate FilledOk(cfg: Config, e: Filled)
    requires cfg.Valid()
  {
    && BlockOk(cfg, e.block, e.counter, e.past, e.mcnt)
    && Phase(cfg, e.mcnt) == 0 && e.slot == BlockForMcnt(cfg, e.mcnt)
  }

  ghost predicate EntryOk(cfg: Config, log: seq<Filled>, i: nat)
    requires cfg.Valid() && i < |log|
  {
    FilledOk(cfg, log[i]) && log[i].slot == RingSlot(cfg, i)
  }

  ghost predicate LogOk(cfg: Config, log: seq<Filled>)
    requires cfg.Valid()
  {
    forall i: nat :: i < |log| ==> EntryOk(cfg, log, i)
  }

  /** The part of the invariant that also holds while waiting for a free block. */
  ghost predicate CoreInv(cfg: Config, t: Track) {
    var n := t.net;
    && Shape(cfg, n)
    && Phase(cfg, n.mcntStart) == 0
    && n.mcntStart < cfg.McntLimit() + 0x100_0000_0000_0000
    && n.blockI == BlockForMcnt(cfg, n.mcntStart) == RingSlot(cfg, |t.log|)
    && Wrap(n.lastFilled + 1, cfg.nBlocks) == n.blockI
    && BlockOk(cfg, n.blocks[n.blockI], n.counters[n.blockI], t.cur, n.mcntStart)
    && LogOk(cfg, t.log)
  }

  /** The invariant between calls: the thread owns two consecutive blocks, current and next. */
  ghost predicate WindowInv(cfg: Config, t: Track) {
    && CoreInv(cfg, t)
    && var next := NextBlock(cfg, t.net.blockI);
       BlockOk(cfg, t.net.blocks[next], t.net.counters[next], t.nxt, t.net.mcntStart + cfg.nm)
  }

  // ---- machine arithmetic is faithful

  /** In every reachable state the 64-bit distance is the true one, so the three classes of packet
      are the intervals the comments describe. */
  lemma MachineArithmeticFaithful(cfg: Config, t: Track, p: Packet)
    requires cfg.SpanFits() && CoreInv(cfg, t) && PacketOk(cfg, p)
    ensures var d := p.mcnt - t.net.mcntStart;
      && Distance(t.net, p) == d
      && Add64(t.net.mcntStart, cfg.nm) == t.net.mcntStart + cfg.nm
      && Add64(p.mcnt, cfg.nm) == p.mcnt + cfg.nm
      && (Classify(cfg, t.net, p).InWindow? <==> 0 <= d < 2 * cfg.nm)
      && (Classify(cfg, t.net, p).Late? <==> -cfg.LateThreshold() < d < 0)
      && (Classify(cfg, t.net, p).OutOfSequence? <==> d <= -cfg.LateThreshold() || 2 * cfg.nm <= d)
  {
    SignedDistance(p.mcnt, t.net.mcntStart);
    SmallSum(t.net.mcntStart, cfg.nm);
    SmallSum(p.mcnt, cfg.nm);
  }

  /** The late threshold is two full turns of the ring. */
  lemma ClassesPlainly(cfg: Config, t: Track, p: Packet)
    requires cfg.SpanFits() && CoreInv(cfg, t) && PacketOk(cfg, p)
    ensures Classify(cfg, t.net, p)
         == var d := p.mcnt - t.net.mcntStart;
            if 0 <= d < 2 * cfg.nm then InWindow
            else if -2 * (cfg.nm * cfg.nBlocks) < d < 0 then Late
            else OutOfSequence
  {
    MachineArithmeticFaithful(cfg, t, p);
  }

  // ---- preservation, one operation at a time

  lemma FreshBlockOk(cfg: Config, b: Block, mcnt: U64, p: Packet, opener: Option<Packet>, start: int)
    requires cfg.Valid() && BlockShape(cfg, b) && RoundDown(cfg, mcnt) == start
    requires opener == Some(p) || (opener == None && p.pchan == p.nchan == p.sid == 0)
    ensures BlockOk(cfg, Block(FreshHeader(cfg, mcnt, p), b.data), 0, NewPast(b, opener), start)
  {
  }

  lemma StartInv(cfg: Config, memory: seq<Block>)
    requires cfg.SpanFits() && cfg.Valid() && RingShape(cfg, memory)
    ensures WindowInv(cfg, TStart(cfg, memory))
    ensures var n := Start(cfg, memory);
      && n.mcntStart == 0 && n.mcntLogLate == cfg.nm && n.blockI == 0 && n.outOfSeq == 0 && n.lastFilled == -1
      && n.counters == seq(cfg.nBlocks, _ => 0)
  {
    var zero := Packet(0, 0, 0, 0, []);
    MulMono(cfg.nm, 2, cfg.nBlocks);
    ModSmall(0, cfg.nm);
    ModSmall(0, cfg.nBlocks);
    NearbyBlock(cfg, 0, 0);
    NearbyBlock(cfg, 0, cfg.nm);
    Neighbours(cfg, 0);
    FreshBlockOk(cfg, memory[0], 0, zero, None, 0);
    FreshBlockOk(cfg, memory[1], cfg.nm, zero, None, cfg.nm);
  }

  /** The window's start and its ring slot advance together. */
  lemma NextStart(cfg: Config, start: U64, fills: nat)
    requires cfg.Valid() && Phase(cfg, start) == 0 && start + cfg.nm < TWO_64
    requires BlockForMcnt(cfg, start) == RingSlot(cfg, fills)
    ensures Phase(cfg, start + cfg.nm) == 0
    ensures BlockForMcnt(cfg, start + cfg.nm) == NextBlock(cfg, BlockForMcnt(cfg, start))
    ensures BlockForMcnt(cfg, start + cfg.nm) == RingSlot(cfg, fills + 1)
  {
    NearbyBlock(cfg, start, start + cfg.nm);
    ModSuccessor(fills, cfg.nBlocks);
    MulStep(cfg.nm, BlockNumber(cfg, start));
    DivModUnique(start + cfg.nm, cfg.nm, BlockNumber(cfg, start) + 1, 0);
  }

  lemma LogOkStep(cfg: Config, log: seq<Filled>, e: Filled)
    requires cfg.Valid() && LogOk(cfg, log) && FilledOk(cfg, e) && e.slot == RingSlot(cfg, |log|)
    ensures LogOk(cfg, log + [e])
  {
    forall i: nat | i < |log| + 1
      ensures EntryOk(cfg, log + [e], i)
    {
      assert i < |log| ==> EntryOk(cfg, log, i);
    }
  }

  /** Marking the current block filled: it goes to the log as it stands, in cyclic order. */
  lemma CloseInv(cfg: Config, t: Track, p: Packet)
    requires cfg.SpanFits() && WindowInv(cfg, t) && PacketOk(cfg, p) && Closes(cfg, t.net, p)
    ensures CoreInv(cfg, TClose(cfg, t, p))
    ensures !FillWarns(cfg, t.net)
    ensures TClose(cfg, t, p).net.mcntStart == t.net.mcntStart + cfg.nm
    ensures TClose(cfg, t, p).net.mcntStart <= p.mcnt < TClose(cfg, t, p).net.mcntStart + cfg.nm
  {
    var n := t.net;
    MachineArithmeticFaithful(cfg, t, p);
    NextStart(cfg, n.mcntStart, |t.log|);
    var r := TClose(cfg, t, p);
    var entry := r.log[|t.log|];
    assert r.log == t.log + [entry];
    LogOkStep(cfg, t.log, entry);
    assert r.net.blocks == n.blocks && r.net.counters == n.counters && r.cur == t.nxt;
  }

  /** The block initialised after the wait is the one that was waited for. */
  lemma AcquireInv(cfg: Config, t: Track, p: Packet)
    requires cfg.SpanFits() && CoreInv(cfg, t) && PacketOk(cfg, p)
    requires t.net.mcntStart <= p.mcnt < t.net.mcntStart + cfg.nm
    ensures WindowInv(cfg, TAcquire(cfg, t, p))
    ensures BlockForMcnt(cfg, Add64(p.mcnt, cfg.nm)) == NextBlock(cfg, t.net.blockI)
  {
    var n, next := t.net, NextBlock(cfg, t.net.blockI);
    MachineArithmeticFaithful(cfg, t, p);
    NearbyBlock(cfg, n.mcntStart, p.mcnt + cfg.nm);
    Neighbours(cfg, n.blockI);
    FreshBlockOk(cfg, n.blocks[next], p.mcnt + cfg.nm, p, Some(p), n.mcntStart + cfg.nm);
  }

  lemma UnpackData(cfg: Config, base: seq<U64>, filed: seq<Packet>, p: Packet)
    requires cfg.Valid()
    ensures var data := PlaceAll(cfg, base, Accepted(cfg, filed));
      PlaceAll(cfg, base, Accepted(cfg, filed + [p])) == if ValidSid(cfg, p) then Place(cfg, data, p) else data
  {
    var filed' := filed + [p];
    assert filed'[..|filed'| - 1] == filed;
    if ValidSid(cfg, p) {
      var acc := Accepted(cfg, filed');
      assert acc[..|acc| - 1] == Accepted(cfg, filed);
    }
  }

  lemma UnpackMissed(cfg: Config, missed: seq<U64>, filed: seq<Packet>, p: Packet)
    requires cfg.Valid() && MissedOk(cfg, missed, filed)
    ensures var c := Counter(cfg, p);
      MissedOk(cfg, if ValidSid(cfg, p) then missed[c := Sub64(missed[c], 1)] else missed, filed + [p])
  {
    var filed' := filed + [p];
    assert filed'[..|filed'| - 1] == filed;
    var c := Counter(cfg, p);
    var missed' := if ValidSid(cfg, p) then missed[c := Sub64(missed[c], 1)] else missed;
    forall d: nat | d < cfg.nBors
      ensures CounterOk(cfg, missed', filed', d)
    {
      assert CounterOk(cfg, missed, filed, d);
      TruncPredecessor(cfg.nm - Charged(cfg, filed, d));
    }
  }

  /** Counting and unpacking one more packet into its block. */
  lemma UnpackOk(cfg: Config, b: Block, counter: nat, past: Past, start: int, p: Packet)
    requires cfg.Valid() && BlockOk(cfg, b, counter, past, start)
    requires PacketOk(cfg, p) && start <= p.mcnt < start + cfg.nm
    ensures BlockOk(cfg, if ValidSid(cfg, p) then Unpack(cfg, b, p) else b, counter + 1,
                    past.(filed := past.filed + [p]), start)
  {
    var past' := past.(filed := past.filed + [p]);
    var data' := if ValidSid(cfg, p) then Place(cfg, b.data, p) else b.data;
    UnpackData(cfg, past.base, past.filed, p);
    DataIs(cfg, b.data, past);
    DataIs(cfg, data', past');
    UnpackMissed(cfg, b.header.missed, past.filed, p);
  }

  /** The owned block an in-window packet belongs to. */
  lemma TargetBlock(cfg: Config, t: Track, p: Packet)
    requires cfg.SpanFits() && CoreInv(cfg, t) && PacketOk(cfg, p)
    requires t.net.mcntStart <= p.mcnt < t.net.mcntStart + 2 * cfg.nm
    ensures var b, next := t.net.blockI, NextBlock(cfg, t.net.blockI);
      next != b && if p.mcnt < t.net.mcntStart + cfg.nm
                   then BlockForMcnt(cfg, p.mcnt) == b && Distance(t.net, p) < cfg.nm
                   else BlockForMcnt(cfg, p.mcnt) == next && Distance(t.net, p) >= cfg.nm
  {
    MachineArithmeticFaithful(cfg, t, p);
    NearbyBlock(cfg, t.net.mcntStart, p.mcnt);
    Neighbours(cfg, t.net.blockI);
  }

  lemma FileCurrent(cfg: Config, t: Track, p: Packet)
    requires cfg.SpanFits() && WindowInv(cfg, t) && PacketOk(cfg, p)
    requires t.net.mcntStart <= p.mcnt < t.net.mcntStart + cfg.nm
    ensures WindowInv(cfg, TFile(cfg, t, p))
  {
    TargetBlock(cfg, t, p);
    UnpackOk(cfg, t.net.blocks[t.net.blockI], t.net.counters[t.net.blockI], t.cur, t.net.mcntStart, p);
  }

  lemma FileNext(cfg: Config, t: Track, p: Packet)
    requires cfg.SpanFits() && WindowInv(cfg, t) && PacketOk(cfg, p)
    requires t.net.mcntStart + cfg.nm <= p.mcnt < t.net.mcntStart + 2 * cfg.nm
    ensures WindowInv(cfg, TFile(cfg, t, p))
  {
    var next := NextBlock(cfg, t.net.blockI);
    TargetBlock(cfg, t, p);
    UnpackOk(cfg, t.net.blocks[next], t.net.counters[next], t.nxt, t.net.mcntStart + cfg.nm, p);
  }

  /** Every in-window packet goes to one of the two owned blocks, the one whose range it is in. */
  lemma FileInv(cfg: Config, t: Track, p: Packet)
    requires cfg.SpanFits() && WindowInv(cfg, t) && PacketOk(cfg, p)
    requires t.net.mcntStart <= p.mcnt < t.net.mcntStart + 2 * cfg.nm
    ensures WindowInv(cfg, TFile(cfg, t, p))
  {
    if p.mcnt < t.net.mcntStart + cfg.nm {
      FileCurrent(cfg, t, p);
    } else {
      FileNext(cfg, t, p);
    }
  }

  // ---- resynchronisation

  /** Ring slots ahead of slot `b` at which slot `owned` comes round. */
  function SlotsAhead(cfg: Config, b: nat, owned: nat): (d: nat)
    requires b < cfg.nBlocks && owned < cfg.nBlocks
    ensures d < cfg.nBlocks
  {
    if owned >= b then owned - b else owned + cfg.nBlocks - b
  }

  /** `k` is the first block number from `q` on that falls in ring slot `slot`. */
  ghost predicate FirstInSlot(cfg: Config, q: nat, slot: nat, k: nat)
    requires cfg.Valid()
  {
    q <= k && RingSlot(cfg, k) == slot && forall j :: q <= j < k ==> RingSlot(cfg, j) != slot
  }

  lemma AheadLandsOnSlot(cfg: Config, q: nat, owned: nat, j: nat)
    requires cfg.Valid() && owned < cfg.nBlocks && q <= j < q + cfg.nBlocks
    ensures RingSlot(cfg, j) == owned <==> j == q + SlotsAhead(cfg, RingSlot(cfg, q), owned)
  {
    var nb := cfg.nBlocks;
    var k := q + SlotsAhead(cfg, q % nb, owned);
    assert q == nb * (q / nb) + q % nb;
    if owned >= q % nb {
      DivModUnique(k, nb, q / nb, owned);
    } else {
      MulStep(nb, q / nb);
      DivModUnique(k, nb, q / nb + 1, owned);
    }
    if j < k {
      ModDistinct(j, k, nb);
    } else if k < j {
      ModDistinct(k, j, nb);
    }
  }

  lemma AheadIsLeast(cfg: Config, q: nat, owned: nat)
    requires cfg.Valid() && owned < cfg.nBlocks
    ensures FirstInSlot(cfg, q, owned, q + SlotsAhead(cfg, RingSlot(cfg, q), owned))
  {
    var d := SlotsAhead(cfg, RingSlot(cfg, q), owned);
    AheadLandsOnSlot(cfg, q, owned, q + d);
    forall j | q <= j < q + d
      ensures RingSlot(cfg, j) != owned
    {
      AheadLandsOnSlot(cfg, q, owned, j);
    }
  }

  /** How many blocks a reset moves the packet's own block up. */
  function ResyncAhead(cfg: Config, n: Net, p: Packet): (d: nat)
    requires Shape(cfg, n)
    ensures d < cfg.nBlocks
  {
    SlotsAhead(cfg, BlockForMcnt(cfg, p.mcnt), n.blockI)
  }

  lemma ResyncMcntExact(cfg: Config, n: Net, p: Packet)
    requires cfg.SpanFits() && Shape(cfg, n) && PacketOk(cfg, p)
    ensures ResyncMcnt(cfg, n, p) == p.mcnt + cfg.nm * ResyncAhead(cfg, n, p)
  {
    var d := ResyncAhead(cfg, n, p);
    MulMono(cfg.nm, d, cfg.nBlocks);
    MulMono(cfg.nm, 0, d);
    SmallTrunc(cfg.nm * d);
    SmallSum(p.mcnt, cfg.nm * d);
  }

  /** The mcnt a reset is based on lies in the first block, from the packet's own on, of the owned slot. */
  lemma ResyncMcntBlock(cfg: Config, n: Net, p: Packet)
    requires cfg.SpanFits() && Shape(cfg, n) && PacketOk(cfg, p)
    ensures BlockForMcnt(cfg, ResyncMcnt(cfg, n, p)) == n.blockI
    ensures FirstInSlot(cfg, BlockNumber(cfg, p.mcnt), n.blockI, BlockNumber(cfg, ResyncMcnt(cfg, n, p)))
  {
    ResyncMcntExact(cfg, n, p);
    AdvanceBlocks(p.mcnt, cfg.nm, ResyncAhead(cfg, n, p));
    AheadIsLeast(cfg, BlockNumber(cfg, p.mcnt), n.blockI);
  }

  /** The new start, written as a block number. */
  lemma ResyncStartBlock(cfg: Config, n: Net, p: Packet)
    requires cfg.SpanFits() && Shape(cfg, n) && PacketOk(cfg, p)
    ensures var k := BlockNumber(cfg, p.mcnt) + ResyncAhead(cfg, n, p);
      && ResyncStart(cfg, n, p) == cfg.nm * k
      && BlockNumber(cfg, ResyncStart(cfg, n, p)) == k
      && Phase(cfg, ResyncStart(cfg, n, p)) == 0
  {
    var d := ResyncAhead(cfg, n, p);
    ResyncMcntExact(cfg, n, p);
    AdvanceBlocks(p.mcnt, cfg.nm, d);
    DivModUnique(cfg.nm * (BlockNumber(cfg, p.mcnt) + d), cfg.nm, BlockNumber(cfg, p.mcnt) + d, 0);
  }

  lemma ResyncStartBounds(cfg: Config, n: Net, p: Packet)
    requires cfg.SpanFits() && Shape(cfg, n) && PacketOk(cfg, p)
    ensures p.mcnt < ResyncStart(cfg, n, p) + cfg.nm
    ensures ResyncStart(cfg, n, p) <= p.mcnt + cfg.nm * (cfg.nBlocks - 1)
  {
    ResyncStartBlock(cfg, n, p);
    AdvancedBounds(p.mcnt, cfg.nm, ResyncAhead(cfg, n, p));
    MulMono(cfg.nm, ResyncAhead(cfg, n, p), cfg.nBlocks - 1);
  }

  /** A reset keeps the ring slot already owned, and picks the first block at or after the packet's
      own block that has it. */
  lemma ResyncLandsOnOwnedSlot(cfg: Config, n: Net, p: Packet)
    requires cfg.SpanFits() && Shape(cfg, n) && PacketOk(cfg, p)
    ensures var start := ResyncStart(cfg, n, p);
      && Phase(cfg, start) == 0
      && BlockForMcnt(cfg, start) == n.blockI
      && FirstInSlot(cfg, BlockNumber(cfg, p.mcnt), n.blockI, BlockNumber(cfg, start))
  {
    ResyncStartBlock(cfg, n, p);
    AheadIsLeast(cfg, BlockNumber(cfg, p.mcnt), n.blockI);
  }

  /** The comment in the source asks for a start at or after the packet. The code meets that exactly
      when the packet is in another ring slot or begins its block; otherwise the packet's own block
      is kept and the window starts before it. */
  lemma ResyncStartAgainstPacket(cfg: Config, n: Net, p: Packet)
    requires cfg.SpanFits() && Shape(cfg, n) && PacketOk(cfg, p)
    ensures p.mcnt <= ResyncStart(cfg, n, p) <==>
            BlockForMcnt(cfg, p.mcnt) != n.blockI || Phase(cfg, p.mcnt) == 0
  {
    ResyncStartBlock(cfg, n, p);
    AdvancedBounds(p.mcnt, cfg.nm, ResyncAhead(cfg, n, p));
  }

  lemma ResyncFits(cfg: Config, n: Net, p: Packet)
    requires cfg.SpanFits() && Shape(cfg, n) && PacketOk(cfg, p)
    ensures ResyncStart(cfg, n, p) < cfg.McntLimit() + 0x100_0000_0000_0000
    ensures Add64(ResyncStart(cfg, n, p), cfg.nm) == ResyncStart(cfg, n, p) + cfg.nm
  {
    ResyncStartBounds(cfg, n, p);
    MulMono(cfg.nm, cfg.nBlocks - 1, cfg.nBlocks);
    SmallSum(ResyncStart(cfg, n, p), cfg.nm);
  }

  /** Both recycled blocks are the two already owned; no other block is touched. */
  lemma ResyncKeepsBlocks(cfg: Config, n: Net, p: Packet)
    requires cfg.SpanFits() && Shape(cfg, n) && PacketOk(cfg, p)
    ensures var r, next := Resync(cfg, n, p), NextBlock(cfg, n.blockI);
      && r.blockI == n.blockI
      && r.blocks == n.blocks[n.blockI := r.blocks[n.blockI]][next := r.blocks[next]]
      && r.blocks[n.blockI] == Block(FreshHeader(cfg, r.mcntStart, p), n.blocks[n.blockI].data)
      && Add64(r.mcntStart, cfg.nm) == r.mcntStart + cfg.nm
      && r.blocks[next] == Block(FreshHeader(cfg, r.mcntStart + cfg.nm, p), n.blocks[next].data)
  {
    var start := ResyncStart(cfg, n, p);
    ResyncLandsOnOwnedSlot(cfg, n, p);
    ResyncFits(cfg, n, p);
    NearbyBlock(cfg, start, start);
    NearbyBlock(cfg, start, start + cfg.nm);
    Neighbours(cfg, n.blockI);
  }

  /** What a reset leaves of the state: two recycled blocks, empty, with the slot unchanged. */
  lemma ResyncInv(cfg: Config, t: Track, p: Packet)
    requires cfg.SpanFits() && WindowInv(cfg, t) && PacketOk(cfg, p)
    ensures var n := t.net; var r := Resync(cfg, n, p); var next := NextBlock(cfg, n.blockI);
      && Phase(cfg, r.mcntStart) == 0 && r.mcntStart < cfg.McntLimit() + 0x100_0000_0000_0000
      && r.blockI == n.blockI == BlockForMcnt(cfg, r.mcntStart) && r.lastFilled == n.lastFilled
      && r.counters[n.blockI] == 0 == r.counters[next]
      && BlockOk(cfg, r.blocks[n.blockI], 0, NewPast(r.blocks[n.blockI], Some(p)), r.mcntStart)
      && BlockOk(cfg, r.blocks[next], 0, NewPast(r.blocks[next], Some(p)), r.mcntStart + cfg.nm)
  {
    var n, next := t.net, NextBlock(cfg, t.net.blockI);
    var start := ResyncStart(cfg, n, p);
    ResyncLandsOnOwnedSlot(cfg, n, p);
    ResyncFits(cfg, n, p);
    ResyncKeepsBlocks(cfg, n, p);
    Neighbours(cfg, n.blockI);
    NearbyBlock(cfg, start, start);
    NearbyBlock(cfg, start, start + cfg.nm);
    FreshBlockOk(cfg, n.blocks[n.blockI], start, p, Some(p), start);
    FreshBlockOk(cfg, n.blocks[next], start + cfg.nm, p, Some(p), start + cfg.nm);
  }

  lemma OutOfSeqInv(cfg: Config, t: Track, p: Packet)
    requires cfg.SpanFits() && WindowInv(cfg, t) && PacketOk(cfg, p)
    ensures WindowInv(cfg, TOutOfSeq(cfg, t, p))
  {
    var n := t.net.(outOfSeq := t.net.outOfSeq + 1);
    if n.outOfSeq > cfg.MaxOutOfSeq() {
      ResyncInv(cfg, t.(net := n), p);
    }
  }

  // ---- all runs

  lemma StepInv(cfg: Config, t: Track, p: Packet)
    requires cfg.SpanFits() && WindowInv(cfg, t) && PacketOk(cfg, p)
    ensures WindowInv(cfg, TStep(cfg, t, p))
    ensures Closes(cfg, t.net, p) ==> !FillWarns(cfg, t.net)
  {
    MachineArithmeticFaithful(cfg, t, p);
    match Classify(cfg, t.net, p)
    case InWindow =>
      if Closes(cfg, t.net, p) {
        CloseInv(cfg, t, p);
        AcquireInv(cfg, TClose(cfg, t, p), p);
        FileInv(cfg, TAcquire(cfg, TClose(cfg, t, p), p), p);
      } else {
        FileInv(cfg, t, p);
      }
    case Late =>
    case OutOfSequence =>
      OutOfSeqInv(cfg, t, p);
  }

  datatype Move = Advance | Reset | Stay

  function MoveOf(cfg: Config, n: Net, p: Packet): Move {
    if Closes(cfg, n, p) then Advance else if Resyncs(cfg, n, p) then Reset else Stay
  }

  /** How a call moves the window, and what it adds to the log. */
  ghost predicate Moves(cfg: Config, t: Track, r: Track, move: Move) {
    match move
    case Advance =>
      && r.net.mcntStart == t.net.mcntStart + cfg.nm && r.net.mcntLogLate == t.net.mcntLogLate
      && r.epoch == t.epoch
      && |r.log| == |t.log| + 1 && r.log[..|t.log|] == t.log
      && var e := r.log[|t.log|];
         e.mcnt == t.net.mcntStart && e.past == t.cur && e.epoch == t.epoch && e.block.header.mcnt == e.mcnt
    case Reset =>
      && r.net.mcntLogLate == r.net.mcntStart + cfg.nm
      && r.epoch == t.epoch + 1 && r.log == t.log && r.cur.filed == [] == r.nxt.filed
    case Stay =>
      && r.net.mcntStart == t.net.mcntStart && r.net.mcntLogLate == t.net.mcntLogLate
      && r.epoch == t.epoch && r.log == t.log
  }

  lemma CloseMoves(cfg: Config, t: Track, p: Packet)
    requires cfg.SpanFits() && WindowInv(cfg, t) && PacketOk(cfg, p) && Closes(cfg, t.net, p)
    ensures Moves(cfg, t, TStep(cfg, t, p), Advance)
    ensures TStep(cfg, t, p).log[|t.log|].closer == p && TStep(cfg, t, p).log[|t.log|].slot == t.net.blockI
  {
    SmallSum(t.net.mcntStart, cfg.nm);
    assert TStep(cfg, t, p).log == TClose(cfg, t, p).log;
  }

  lemma ResyncMoves(cfg: Config, t: Track, p: Packet)
    requires cfg.SpanFits() && Shape(cfg, t.net) && PacketOk(cfg, p) && Resyncs(cfg, t.net, p)
    ensures Moves(cfg, t, TStep(cfg, t, p), Reset)
    ensures TStep(cfg, t, p).net.mcntStart == ResyncStart(cfg, t.net, p)
  {
    var n := t.net.(outOfSeq := t.net.outOfSeq + 1);
    ResyncFits(cfg, n, p);
    ResetStep(cfg, t, p);
  }

  /** A step that resets the window, written out. */
  lemma ResetStep(cfg: Config, t: Track, p: Packet)
    requires Shape(cfg, t.net) && Resyncs(cfg, t.net, p)
    ensures var n := Resync(cfg, t.net.(outOfSeq := t.net.outOfSeq + 1), p);
      TStep(cfg, t, p) == t.(net := n, epoch := t.epoch + 1,
                             cur := NewPast(n.blocks[n.blockI], Some(p)),
                             nxt := NewPast(n.blocks[NextBlock(cfg, n.blockI)], Some(p)))
  {
  }

  lemma StayMoves(cfg: Config, t: Track, p: Packet)
    requires Shape(cfg, t.net) && !Closes(cfg, t.net, p) && !Resyncs(cfg, t.net, p)
    ensures Moves(cfg, t, TStep(cfg, t, p), Stay)
  {
  }

  lemma StepMoves(cfg: Config, t: Track, p: Packet)
    requires cfg.SpanFits() && WindowInv(cfg, t) && PacketOk(cfg, p)
    ensures Moves(cfg, t, TStep(cfg, t, p), MoveOf(cfg, t.net, p))
  {
    match MoveOf(cfg, t.net, p)
    case Advance => CloseMoves(cfg, t, p);
    case Reset => ResyncMoves(cfg, t, p);
    case Stay => StayMoves(cfg, t, p);
  }

  ghost predicate PacketsOk(cfg: Config, ps: seq<Packet>) {
    forall i :: 0 <= i < |ps| ==> PacketOk(cfg, ps[i])
  }

  /** The window invariant holds after every run, whatever packets arrive. */
  lemma {:induction false} RunInv(cfg: Config, t: Track, ps: seq<Packet>)
    requires cfg.SpanFits() && WindowInv(cfg, t) && PacketsOk(cfg, ps)
    ensures WindowInv(cfg, TRun(cfg, t, ps))
  {
    if ps != [] {
      RunInv(cfg, t, ps[..|ps| - 1]);
      StepInv(cfg, TRun(cfg, t, ps[..|ps| - 1]), ps[|ps| - 1]);
    }
  }
}
