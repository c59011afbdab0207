/** The packet reassembler as a function on states: what one call of `process_packet` does.
    Every sum and difference of mcnts is taken in 64-bit machine arithmetic. */
module Reassembler {
  import opened Words
  import opened DivMod
  import opened Layout

  datatype Header = Header(mcnt: U64, chanId: U64, numChan: U64, sid: U64, missed: seq<U64>)

  datatype Block = Block(header: Header, data: seq<U64>)

  /** The static `block_info_t`, the static `last_filled`, and the shared input ring's blocks. */
  datatype Net = Net(
    mcntStart: U64, mcntLogLate: U64, blockI: nat, outOfSeq: nat, counters: seq<nat>,
    lastFilled: int, blocks: seq<Block>)

  predicate BlockShape(cfg: Config, b: Block) {
    |b.header.missed| == cfg.nBors && |b.data| == cfg.blockWords
  }

  predicate RingShape(cfg: Config, blocks: seq<Block>) {
    |blocks| == cfg.nBlocks && forall i :: 0 <= i < |blocks| ==> BlockShape(cfg, blocks[i])
  }

  predicate Shape(cfg: Config, n: Net) {
    && cfg.Valid()
    && n.blockI < cfg.nBlocks && -1 <= n.lastFilled
    && |n.counters| == cfg.nBlocks && RingShape(cfg, n.blocks)
  }

  function NextBlock(cfg: Config, b: nat): (c: nat)
    requires cfg.Valid()
    ensures c < cfg.nBlocks
  {
    Wrap(b + 1, cfg.nBlocks)
  }

  /** The first mcnt of the block that holds `mcnt`. */
  function RoundDown(cfg: Config, mcnt: U64): (r: U64)
    requires cfg.Valid()
    ensures r <= mcnt
  {
    mcnt - Phase(cfg, mcnt)
  }

  function FreshHeader(cfg: Config, mcnt: U64, p: Packet): Header
    requires cfg.Valid()
  {
    Header(RoundDown(cfg, mcnt), p.pchan, p.nchan, p.sid, seq(cfg.nBors, _ => cfg.nm))
  }

  /** `initialize_block`: a fresh header on the block that holds `mcnt`; the data are left alone. */
  function InitBlock(cfg: Config, blocks: seq<Block>, mcnt: U64, p: Packet): (r: seq<Block>)
    requires cfg.Valid() && RingShape(cfg, blocks)
    ensures RingShape(cfg, r)
  {
    var b := BlockForMcnt(cfg, mcnt);
    blocks[b := Block(FreshHeader(cfg, mcnt, p), blocks[b].data)]
  }

  /** What that does, field by field. */
  lemma InitBlockPlainly(cfg: Config, blocks: seq<Block>, mcnt: U64, p: Packet)
    requires cfg.Valid() && RingShape(cfg, blocks)
    ensures var r, b := InitBlock(cfg, blocks, mcnt, p), mcnt / cfg.nm % cfg.nBlocks;
      && 0 <= b < cfg.nBlocks && r == blocks[b := r[b]] && r[b].data == blocks[b].data
      && r[b].header.mcnt == mcnt - mcnt % cfg.nm
      && r[b].header.chanId == p.pchan && r[b].header.numChan == p.nchan && r[b].header.sid == p.sid
      && forall c :: 0 <= c < cfg.nBors ==> r[b].header.missed[c] == cfg.nm
  {
  }

  /** The state in which the packet loop starts: two blocks initialised, for mcnt 0 and `nm`. */
  function Start(cfg: Config, memory: seq<Block>): (n: Net)
    requires cfg.Valid() && RingShape(cfg, memory)
    ensures Shape(cfg, n)
  {
    var zero := Packet(0, 0, 0, 0, []);
    Net(0, cfg.nm, 0, 0, seq(cfg.nBlocks, _ => 0), -1,
        InitBlock(cfg, InitBlock(cfg, memory, 0, zero), cfg.nm, zero))
  }

  /** How far the packet lies from the start of the window, as the program computes it. */
  function Distance(n: Net, p: Packet): int {
    Signed64(Sub64(p.mcnt, n.mcntStart))
  }

  datatype Class = InWindow | Late | OutOfSequence

  function Classify(cfg: Config, n: Net, p: Packet): Class {
    if 0 <= Distance(n, p) < 2 * cfg.nm then InWindow
    else if Distance(n, p) < 0 && Distance(n, p) > -cfg.LateThreshold() then Late
    else OutOfSequence
  }

  /** The packet reaches the second half of the next block, so the current block is done. */
  predicate Closes(cfg: Config, n: Net, p: Packet) {
    Classify(cfg, n, p).InWindow? && 3 * (cfg.nm / 2) <= Distance(n, p)
  }

  predicate Resyncs(cfg: Config, n: Net, p: Packet) {
    Classify(cfg, n, p).OutOfSequence? && n.outOfSeq + 1 > cfg.MaxOutOfSeq()
  }

  /** Physical block that `set_block_filled` marks. */
  function FillTarget(cfg: Config, n: Net): nat
    requires cfg.Valid()
  {
    BlockForMcnt(cfg, n.mcntStart)
  }

  /** Whether `set_block_filled` prints either of its two sequence warnings. */
  predicate FillWarns(cfg: Config, n: Net)
    requires cfg.Valid() && -1 <= n.lastFilled
  {
    Wrap(n.lastFilled + 1, cfg.nBlocks) != FillTarget(cfg, n) || FillTarget(cfg, n) != n.blockI
  }

  /** Marking the current block filled and advancing to the next, up to the wait for a free block. */
  function Close(cfg: Config, n: Net): (r: Net)
    requires Shape(cfg, n)
    ensures Shape(cfg, r)
  {
    n.(lastFilled := Wrap(n.lastFilled + 1, cfg.nBlocks),
       mcntStart := Add64(n.mcntStart, cfg.nm),
       blockI := NextBlock(cfg, n.blockI))
  }

  /** After the wait: the newly acquired block is initialised. */
  function Acquire(cfg: Config, n: Net, p: Packet): (r: Net)
    requires Shape(cfg, n)
    ensures Shape(cfg, r)
  {
    n.(blocks := InitBlock(cfg, n.blocks, Add64(p.mcnt, cfg.nm), p),
       counters := n.counters[NextBlock(cfg, n.blockI) := 0])
  }

  /** One accepted packet's effect on its block. */
  function Unpack(cfg: Config, b: Block, p: Packet): (r: Block)
    requires cfg.Valid() && BlockShape(cfg, b) && ValidSid(cfg, p)
    ensures BlockShape(cfg, r)
  {
    var c := Counter(cfg, p);
    Block(b.header.(missed := b.header.missed[c := Sub64(b.header.missed[c], 1)]), Place(cfg, b.data, p))
  }

  /** Counting an in-window packet, and unpacking it if its source id is in range. */
  function File(cfg: Config, n: Net, p: Packet): (r: Net)
    requires Shape(cfg, n)
    ensures Shape(cfg, r)
  {
    var b := BlockForMcnt(cfg, p.mcnt);
    var counted := n.(outOfSeq := 0, counters := n.counters[b := n.counters[b] + 1]);
    if ValidSid(cfg, p) then counted.(blocks := n.blocks[b := Unpack(cfg, n.blocks[b], p)]) else counted
  }

  /** The mcnt a reset is based on: the packet's, moved up to the ring slot already owned. */
  function ResyncMcnt(cfg: Config, n: Net, p: Packet): U64
    requires Shape(cfg, n)
  {
    var b := BlockForMcnt(cfg, p.mcnt);
    if n.blockI > b then Add64(p.mcnt, Trunc64(cfg.nm * (n.blockI - b)))
    else if n.blockI < b then Add64(p.mcnt, Trunc64(cfg.nm * (n.blockI + cfg.nBlocks - b)))
    else p.mcnt
  }

  function ResyncStart(cfg: Config, n: Net, p: Packet): U64
    requires Shape(cfg, n)
  {
    RoundDown(cfg, ResyncMcnt(cfg, n, p))
  }

  /** Moving the window onto an out-of-sequence packet and recycling the two owned blocks.
      The out-of-sequence count is not reset here: only an in-window packet does that. */
  function Resync(cfg: Config, n: Net, p: Packet): (r: Net)
    requires Shape(cfg, n)
    ensures Shape(cfg, r)
  {
    Recycle(cfg, MoveTo(cfg, n, ResyncStart(cfg, n, p)), p)
  }

  function MoveTo(cfg: Config, n: Net, start: U64): (r: Net)
    requires Shape(cfg, n)
    ensures Shape(cfg, r)
  {
    n.(mcntStart := start, mcntLogLate := Add64(start, cfg.nm), blockI := BlockForMcnt(cfg, start))
  }

  /** Re-initialising the current block and its successor, and their packet counters. */
  function Recycle(cfg: Config, n: Net, p: Packet): (r: Net)
    requires Shape(cfg, n)
    ensures Shape(cfg, r)
  {
    n.(blocks := InitBlock(cfg, InitBlock(cfg, n.blocks, n.mcntStart, p), Add64(n.mcntStart, cfg.nm), p),
       counters := n.counters[n.blockI := 0][NextBlock(cfg, n.blockI) := 0])
  }

  /** An out-of-sequence packet is dropped, and counted; one too many resets the window. */
  function CountOutOfSeq(cfg: Config, n: Net, p: Packet): (r: Net)
    requires Shape(cfg, n)
    ensures Shape(cfg, r)
  {
    var counted := n.(outOfSeq := n.outOfSeq + 1);
    if counted.outOfSeq > cfg.MaxOutOfSeq() then Resync(cfg, counted, p) else counted
  }

  /** One call of `process_packet`. */
  function Step(cfg: Config, n: Net, p: Packet): (r: Net)
    requires Shape(cfg, n)
    ensures Shape(cfg, r)
  {
    match Classify(cfg, n, p)
    case InWindow => File(cfg, if Closes(cfg, n, p) then Acquire(cfg, Close(cfg, n), p) else n, p)
    case Late => n
    case OutOfSequence => CountOutOfSeq(cfg, n, p)
  }

  /** Whether a dropped late packet is reported. */
  predicate LateWarns(cfg: Config, n: Net, p: Packet) {
    Classify(cfg, n, p).Late? && n.mcntStart >= n.mcntLogLate
  }

  function Run(cfg: Config, n: Net, ps: seq<Packet>): (r: Net)
    requires Shape(cfg, n)
    ensures Shape(cfg, r)
  {
    if ps == [] then n else Step(cfg, Run(cfg, n, ps[..|ps| - 1]), ps[|ps| - 1])
  }
}
