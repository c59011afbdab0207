/** The three threads of the FAST pipeline, interleaved: the net thread files packets into the input
    ring, the GPU thread copies filled input blocks to the output ring, the output thread consumes
    filled output blocks, zeroes them and frees them. Waits on a block's status are the
    guards of steps; between waits each thread touches only blocks it holds. */
module Pipeline {
  import opened DivMod
  import opened Layout
  import opened Reassembler
  import opened History
  import opened Window
  import opened Ring

  datatype NetPc = Idle | Waiting(p: Packet)

  datatype GpuPc = AwaitFilled | AwaitFree | Copying | Publishing | Releasing

  datatype OutPc = AwaitBlock | Writing | Clearing | Freeing

  /** `curIn`, `curOut` and `outIdx` are the threads' block indices. `released`, `published` and
      `freed` count what they have done, and `consumed` is what the output thread was given. */
  datatype Sys = Sys(
    net: Track, netPc: NetPc, inFilled: seq<bool>,
    gpuPc: GpuPc, curIn: nat, curOut: nat,
    outFilled: seq<bool>, outBlocks: seq<Block>, outPc: OutPc, outIdx: nat,
    released: nat, published: nat, freed: nat, consumed: seq<Block>)

  datatype Action =
    | Receive(p: Packet) | AcquireBlock
    | SeeInput | SeeOutput | CopyBlock | Publish | Release
    | SeeFilled | WriteOut | ClearBlock | FreeBlock

  predicate SysShape(cfg: Config, nOut: nat, s: Sys) {
    && cfg.instrument.Fast? && 1 <= nOut && Shape(cfg, s.net.net)
    && |s.inFilled| == cfg.nBlocks && s.curIn < cfg.nBlocks
    && |s.outFilled| == nOut == |s.outBlocks| && s.curOut < nOut && s.outIdx < nOut
  }

  function Zeroed(b: Block): Block {
    Block(Header(0, 0, 0, 0, seq(|b.header.missed|, _ => 0)), seq(|b.data|, _ => 0))
  }

  /** The block whose release the net thread waits for. */
  function WaitedFor(cfg: Config, s: Sys): (b: nat)
    requires cfg.Valid()
    ensures b < cfg.nBlocks
  {
    NextBlock(cfg, s.net.net.blockI)
  }

  predicate Enabled(cfg: Config, nOut: nat, s: Sys, a: Action)
    requires SysShape(cfg, nOut, s)
  {
    match a
    case Receive(p) => s.netPc.Idle? && PacketOk(cfg, p)
    case AcquireBlock => s.netPc.Waiting? && !s.inFilled[WaitedFor(cfg, s)]
    case SeeInput => s.gpuPc.AwaitFilled? && s.inFilled[s.curIn]
    case SeeOutput => s.gpuPc.AwaitFree? && !s.outFilled[s.curOut]
    case CopyBlock => s.gpuPc.Copying?
    case Publish => s.gpuPc.Publishing?
    case Release => s.gpuPc.Releasing?
    case SeeFilled => s.outPc.AwaitBlock? && s.outFilled[s.outIdx]
    case WriteOut => s.outPc.Writing?
    case ClearBlock => s.outPc.Clearing?
    case FreeBlock => s.outPc.Freeing?
  }

  predicate IsConsumer(a: Action) {
    !a.Receive? && !a.AcquireBlock?
  }

  function Finish(cfg: Config, t: Track, p: Packet): (r: Track)
    requires Shape(cfg, t.net)
    ensures Shape(cfg, r.net)
  {
    TFile(cfg, TAcquire(cfg, t, p), p)
  }

  function Do(cfg: Config, nOut: nat, s: Sys, a: Action): (r: Sys)
    requires SysShape(cfg, nOut, s) && Enabled(cfg, nOut, s, a)
    ensures SysShape(cfg, nOut, r)
  {
    match a
    case Receive(p) =>
      if Closes(cfg, s.net.net, p)
      then s.(net := TClose(cfg, s.net, p), netPc := Waiting(p),
              inFilled := s.inFilled[FillTarget(cfg, s.net.net) := true])
      else s.(net := TStep(cfg, s.net, p))
    case AcquireBlock => s.(net := Finish(cfg, s.net, s.netPc.p), netPc := Idle)
    case SeeInput => s.(gpuPc := AwaitFree)
    case SeeOutput => s.(gpuPc := Copying)
    case CopyBlock => s.(gpuPc := Publishing, outBlocks := s.outBlocks[s.curOut := s.net.net.blocks[s.curIn]])
    case Publish => s.(gpuPc := Releasing, outFilled := s.outFilled[s.curOut := true],
                       curOut := Wrap(s.curOut + 1, nOut), published := s.published + 1)
    case Release => s.(gpuPc := AwaitFilled, inFilled := s.inFilled[s.curIn := false],
                       curIn := Wrap(s.curIn + 1, cfg.nBlocks), released := s.released + 1)
    case SeeFilled => s.(outPc := Writing)
    case WriteOut => s.(outPc := Clearing, consumed := s.consumed + [s.outBlocks[s.outIdx]])
    case ClearBlock => s.(outPc := Freeing, outBlocks := s.outBlocks[s.outIdx := Zeroed(s.outBlocks[s.outIdx])])
    case FreeBlock => s.(outPc := AwaitBlock, outFilled := s.outFilled[s.outIdx := false],
                         outIdx := Wrap(s.outIdx + 1, nOut), freed := s.freed + 1)
  }

  // ---- the invariant

  /** Ring positions `lo` up to `hi` hold the log's blocks. */
  ghost predicate Holds(ring: seq<Block>, n: nat, lo: nat, hi: nat, log: seq<Filled>) {
    && 1 <= n == |ring| && hi <= |log|
    && forall i :: lo <= i < hi ==> ring[Wrap(i, n)] == log[i].block
  }

  lemma HoldsWrite(ring: seq<Block>, n: nat, lo: nat, hi: nat, log: seq<Filled>, j: nat, b: Block)
    requires Holds(ring, n, lo, hi, log)
    requires hi <= j < lo + n || (j < lo && hi <= j + n)
    ensures Holds(ring[Wrap(j, n) := b], n, lo, hi, log)
  {
    forall i | lo <= i < hi
      ensures Wrap(i, n) != Wrap(j, n)
    {
      if i < j {
        SlotsDiffer(i, j, n);
      } else {
        SlotsDiffer(j, i, n);
      }
    }
  }

  ghost predicate NetOk(cfg: Config, t: Track, pc: NetPc) {
    match pc
    case Idle => WindowInv(cfg, t)
    case Waiting(p) => CoreInv(cfg, t) && PacketOk(cfg, p) && t.net.mcntStart <= p.mcnt < t.net.mcntStart + cfg.nm
  }

  /** Input ring: the filled blocks are those filled and not yet released, intact; the net thread's
      two blocks (one, while it waits) are free. */
  ghost predicate InputOk(cfg: Config, s: Sys)
    requires cfg.Valid()
  {
    var fills := |s.net.log|;
    && FlagsMatch(s.inFilled, cfg.nBlocks, s.released, fills)
    && fills - s.released + (if s.netPc.Idle? then 2 else 1) <= cfg.nBlocks
    && Holds(s.net.net.blocks, cfg.nBlocks, s.released, fills, s.net.log)
  }

  ghost predicate GpuOk(cfg: Config, nOut: nat, s: Sys)
    requires cfg.Valid() && 1 <= nOut
  {
    && s.curIn == RingSlot(cfg, s.released) && s.curOut == Wrap(s.published, nOut)
    && (!s.gpuPc.AwaitFilled? ==> s.released < |s.net.log|)
    && s.published == s.released + (if s.gpuPc.Releasing? then 1 else 0)
    && (s.gpuPc.Copying? || s.gpuPc.Publishing? ==> s.published < s.freed + nOut)
    && |s.outBlocks| == nOut
    && (s.gpuPc.Publishing? ==> s.published < |s.net.log| && s.outBlocks[s.curOut] == s.net.log[s.published].block)
  }

  /** Output ring: the filled blocks are those published and not yet freed, intact until cleared. */
  ghost predicate OutputOk(nOut: nat, s: Sys)
    requires 1 <= nOut
  {
    && FlagsMatch(s.outFilled, nOut, s.freed, s.published)
    && s.outIdx == Wrap(s.freed, nOut)
    && (!s.outPc.AwaitBlock? ==> s.freed < s.published)
    && Holds(s.outBlocks, nOut, s.freed + (if s.outPc.Freeing? then 1 else 0), s.published, s.net.log)
    && |s.consumed| == s.freed + (if s.outPc.Clearing? || s.outPc.Freeing? then 1 else 0)
    && |s.consumed| <= s.published
    && forall i :: 0 <= i < |s.consumed| ==> s.consumed[i] == s.net.log[i].block
  }

  ghost predicate PipeInv(cfg: Config, nOut: nat, s: Sys) {
    SysShape(cfg, nOut, s) && NetOk(cfg, s.net, s.netPc) && RingsOk(cfg, nOut, s)
  }

  ghost predicate RingsOk(cfg: Config, nOut: nat, s: Sys)
    requires cfg.Valid() && 1 <= nOut
  {
    InputOk(cfg, s) && GpuOk(cfg, nOut, s) && OutputOk(nOut, s)
  }

  /** All three threads at the top of their loops, with both rings free. */
  function Boot(cfg: Config, nOut: nat, memory: seq<Block>, outMemory: seq<Block>): (s: Sys)
    requires cfg.Valid() && RingShape(cfg, memory) && cfg.instrument.Fast? && 1 <= nOut == |outMemory|
    ensures SysShape(cfg, nOut, s)
  {
    Sys(TStart(cfg, memory), Idle, seq(cfg.nBlocks, _ => false), AwaitFilled, 0, 0,
        seq(nOut, _ => false), outMemory, AwaitBlock, 0, 0, 0, 0, [])
  }

  lemma BootInv(cfg: Config, nOut: nat, memory: seq<Block>, outMemory: seq<Block>)
    requires cfg.Valid() && cfg.SpanFits() && RingShape(cfg, memory) && cfg.instrument.Fast? && 1 <= nOut == |outMemory|
    ensures PipeInv(cfg, nOut, Boot(cfg, nOut, memory, outMemory))
  {
    StartInv(cfg, memory);
    ModSmall(0, cfg.nBlocks);
    ModSmall(0, nOut);
  }

  // ---- the net thread's steps

  /** Calls that close no block touch only the two owned blocks, across resyncs too. */
  lemma StepTouches(cfg: Config, t: Track, p: Packet, b: nat)
    requires cfg.SpanFits() && WindowInv(cfg, t) && PacketOk(cfg, p) && !Closes(cfg, t.net, p)
    requires b < cfg.nBlocks && b != t.net.blockI && b != NextBlock(cfg, t.net.blockI)
    ensures TStep(cfg, t, p).net.blocks[b] == t.net.blocks[b] && TStep(cfg, t, p).log == t.log
  {
    MachineArithmeticFaithful(cfg, t, p);
    if Classify(cfg, t.net, p).InWindow? {
      NearbyBlock(cfg, t.net.mcntStart, p.mcnt);
    } else if Resyncs(cfg, t.net, p) {
      ResyncKeepsBlocks(cfg, t.net.(outOfSeq := t.net.outOfSeq + 1), p);
    }
  }

  /** After the wait, the call touches only the current block and the one waited for. */
  lemma FinishTouches(cfg: Config, t: Track, p: Packet, b: nat)
    requires cfg.Valid() && cfg.SpanFits() && NetOk(cfg, t, Waiting(p))
    requires b < cfg.nBlocks && b != t.net.blockI && b != NextBlock(cfg, t.net.blockI)
    ensures Finish(cfg, t, p).net.blocks[b] == t.net.blocks[b] && Finish(cfg, t, p).log == t.log
  {
    AcquireInv(cfg, t, p);
    NearbyBlock(cfg, t.net.mcntStart, p.mcnt);
  }

  /** The owned blocks are the ring positions just past the filled ones. */
  lemma OwnedSlots(cfg: Config, t: Track)
    requires CoreInv(cfg, t)
    ensures t.net.blockI == RingSlot(cfg, |t.log|) == FillTarget(cfg, t.net)
    ensures NextBlock(cfg, t.net.blockI) == RingSlot(cfg, |t.log| + 1)
  {
    ModSuccessor(|t.log|, cfg.nBlocks);
  }

  lemma NotOwned(cfg: Config, t: Track, i: nat)
    requires CoreInv(cfg, t) && i < |t.log| < i + cfg.nBlocks
    ensures RingSlot(cfg, i) != t.net.blockI
    ensures |t.log| + 1 < i + cfg.nBlocks ==> RingSlot(cfg, i) != NextBlock(cfg, t.net.blockI)
  {
    OwnedSlots(cfg, t);
    SlotsDiffer(i, |t.log|, cfg.nBlocks);
    if |t.log| + 1 < i + cfg.nBlocks {
      SlotsDiffer(i, |t.log| + 1, cfg.nBlocks);
    }
  }

  /** Changing only owned blocks, with nothing added to the log, leaves both rings in order. */
  lemma OwnedWrites(cfg: Config, nOut: nat, s: Sys, r: Track, pc: NetPc)
    requires SysShape(cfg, nOut, s) && Shape(cfg, r.net) && RingsOk(cfg, nOut, s) && r.log == s.net.log
    requires pc.Idle? && |r.log| - s.released + 2 <= cfg.nBlocks
    requires forall i :: s.released <= i < |r.log| ==> SameAt(s.net.net.blocks, r.net.blocks, RingSlot(cfg, i))
    ensures RingsOk(cfg, nOut, s.(net := r, netPc := pc))
  {
    forall i | s.released <= i < |r.log|
      ensures r.net.blocks[Wrap(i, cfg.nBlocks)] == r.log[i].block
    {
      assert SameAt(s.net.net.blocks, r.net.blocks, RingSlot(cfg, i));
    }
  }

  ghost predicate SameAt(a: seq<Block>, b: seq<Block>, i: nat) {
    i < |a| == |b| && a[i] == b[i]
  }

  lemma ReceiveInv(cfg: Config, nOut: nat, s: Sys, p: Packet)
    requires cfg.SpanFits() && PipeInv(cfg, nOut, s) && Enabled(cfg, nOut, s, Receive(p)) && !Closes(cfg, s.net.net, p)
    ensures PipeInv(cfg, nOut, Do(cfg, nOut, s, Receive(p)))
  {
    StepInv(cfg, s.net, p);
    StepMoves(cfg, s.net, p);
    var r := TStep(cfg, s.net, p);
    forall i | s.released <= i < |s.net.log|
      ensures SameAt(s.net.net.blocks, r.net.blocks, RingSlot(cfg, i))
    {
      NotOwned(cfg, s.net, i);
      StepTouches(cfg, s.net, p, RingSlot(cfg, i));
    }
    OwnedWrites(cfg, nOut, s, r, Idle);
  }

  /** Filling the current block extends the input ring by one. */
  lemma FillRings(cfg: Config, nOut: nat, s: Sys, r: Track, p: Packet)
    requires SysShape(cfg, nOut, s) && Shape(cfg, r.net) && RingsOk(cfg, nOut, s) && s.netPc.Idle?
    requires r.net.blocks == s.net.net.blocks
    requires |r.log| == |s.net.log| + 1 && r.log[..|s.net.log|] == s.net.log
    requires r.log[|s.net.log|].block == s.net.net.blocks[Wrap(|s.net.log|, cfg.nBlocks)]
    ensures RingsOk(cfg, nOut, s.(net := r, netPc := Waiting(p),
                                  inFilled := s.inFilled[Wrap(|s.net.log|, cfg.nBlocks) := true]))
  {
    FillNext(s.inFilled, cfg.nBlocks, s.released, |s.net.log|);
    forall i | 0 <= i < |s.net.log|
      ensures r.log[i] == s.net.log[i]
    {
      assert r.log[i] == r.log[..|s.net.log|][i];
    }
  }

  lemma CloseStepInv(cfg: Config, nOut: nat, s: Sys, p: Packet)
    requires cfg.SpanFits() && PipeInv(cfg, nOut, s) && Enabled(cfg, nOut, s, Receive(p)) && Closes(cfg, s.net.net, p)
    ensures PipeInv(cfg, nOut, Do(cfg, nOut, s, Receive(p)))
  {
    CloseInv(cfg, s.net, p);
    OwnedSlots(cfg, s.net);
    FillRings(cfg, nOut, s, TClose(cfg, s.net, p), p);
  }

  lemma AcquireStepInv(cfg: Config, nOut: nat, s: Sys)
    requires cfg.SpanFits() && PipeInv(cfg, nOut, s) && Enabled(cfg, nOut, s, AcquireBlock)
    ensures PipeInv(cfg, nOut, Do(cfg, nOut, s, AcquireBlock))
  {
    var t, p := s.net, s.netPc.p;
    AcquireInv(cfg, t, p);
    FileInv(cfg, TAcquire(cfg, t, p), p);
    WaitBlocked(cfg, s);
    var r := Finish(cfg, t, p);
    forall i | s.released <= i < |t.log|
      ensures SameAt(t.net.blocks, r.net.blocks, RingSlot(cfg, i))
    {
      NotOwned(cfg, t, i);
      FinishTouches(cfg, t, p, RingSlot(cfg, i));
    }
    OwnedWrites(cfg, nOut, s, r, Idle);
  }

  /** The net thread's wait is blocked exactly when every other block of the ring is filled, and then
      the block it waits for is the one the GPU thread will free next. */
  lemma WaitBlocked(cfg: Config, s: Sys)
    requires CoreInv(cfg, s.net) && InputOk(cfg, s) && s.netPc.Waiting?
    ensures s.inFilled[WaitedFor(cfg, s)] <==> |s.net.log| == s.released + cfg.nBlocks - 1
    ensures s.inFilled[WaitedFor(cfg, s)] ==> WaitedFor(cfg, s) == RingSlot(cfg, s.released)
  {
    OwnedSlots(cfg, s.net);
    SecondFlag(s.inFilled, cfg.nBlocks, s.released, |s.net.log|);
  }

  // ---- the consumers' steps

  lemma GpuStepInv(cfg: Config, nOut: nat, s: Sys, a: Action)
    requires SysShape(cfg, nOut, s) && RingsOk(cfg, nOut, s)
    requires Enabled(cfg, nOut, s, a) && (a.SeeInput? || a.SeeOutput?)
    ensures RingsOk(cfg, nOut, Do(cfg, nOut, s, a))
  {
    FirstFlag(s.inFilled, cfg.nBlocks, s.released, |s.net.log|);
    NextFlag(s.outFilled, nOut, s.freed, s.published);
  }

  lemma CopyInv(cfg: Config, nOut: nat, s: Sys)
    requires SysShape(cfg, nOut, s) && RingsOk(cfg, nOut, s) && Enabled(cfg, nOut, s, CopyBlock)
    ensures RingsOk(cfg, nOut, Do(cfg, nOut, s, CopyBlock))
  {
    HoldsWrite(s.outBlocks, nOut, s.freed + (if s.outPc.Freeing? then 1 else 0), s.published, s.net.log,
               s.published, s.net.net.blocks[s.curIn]);
  }

  lemma PublishInv(cfg: Config, nOut: nat, s: Sys)
    requires SysShape(cfg, nOut, s) && RingsOk(cfg, nOut, s) && Enabled(cfg, nOut, s, Publish)
    ensures RingsOk(cfg, nOut, Do(cfg, nOut, s, Publish))
  {
    FillNext(s.outFilled, nOut, s.freed, s.published);
    WrapNext(s.published, nOut);
  }

  lemma WrapNext(i: nat, n: nat)
    requires 1 <= n
    ensures Wrap(Wrap(i, n) + 1, n) == Wrap(i + 1, n)
  {
    ModSuccessor(i, n);
  }

  lemma ReleaseInv(cfg: Config, nOut: nat, s: Sys)
    requires SysShape(cfg, nOut, s) && RingsOk(cfg, nOut, s) && Enabled(cfg, nOut, s, Release)
    ensures RingsOk(cfg, nOut, Do(cfg, nOut, s, Release))
  {
    FreeFirst(s.inFilled, cfg.nBlocks, s.released, |s.net.log|);
    WrapNext(s.released, cfg.nBlocks);
  }

  lemma OutStepInv(cfg: Config, nOut: nat, s: Sys, a: Action)
    requires SysShape(cfg, nOut, s) && RingsOk(cfg, nOut, s)
    requires Enabled(cfg, nOut, s, a) && (a.SeeFilled? || a.WriteOut?)
    ensures RingsOk(cfg, nOut, Do(cfg, nOut, s, a))
  {
    FirstFlag(s.outFilled, nOut, s.freed, s.published);
  }

  lemma ClearInv(cfg: Config, nOut: nat, s: Sys)
    requires SysShape(cfg, nOut, s) && RingsOk(cfg, nOut, s) && Enabled(cfg, nOut, s, ClearBlock)
    ensures RingsOk(cfg, nOut, Do(cfg, nOut, s, ClearBlock))
  {
    HoldsWrite(s.outBlocks, nOut, s.freed + 1, s.published, s.net.log, s.freed, Zeroed(s.outBlocks[s.outIdx]));
    if s.gpuPc.Publishing? {
      SlotsDiffer(s.freed, s.published, nOut);
    }
  }

  lemma FreeInv(cfg: Config, nOut: nat, s: Sys)
    requires SysShape(cfg, nOut, s) && RingsOk(cfg, nOut, s) && Enabled(cfg, nOut, s, FreeBlock)
    ensures RingsOk(cfg, nOut, Do(cfg, nOut, s, FreeBlock))
  {
    FreeFirst(s.outFilled, nOut, s.freed, s.published);
    WrapNext(s.freed, nOut);
  }

  lemma ConsumerInv(cfg: Config, nOut: nat, s: Sys, a: Action)
    requires SysShape(cfg, nOut, s) && RingsOk(cfg, nOut, s) && Enabled(cfg, nOut, s, a) && IsConsumer(a)
    ensures RingsOk(cfg, nOut, Do(cfg, nOut, s, a))
    ensures Do(cfg, nOut, s, a).net == s.net && Do(cfg, nOut, s, a).netPc == s.netPc
  {
    match a
    case SeeInput => GpuStepInv(cfg, nOut, s, a);
    case SeeOutput => GpuStepInv(cfg, nOut, s, a);
    case CopyBlock => CopyInv(cfg, nOut, s);
    case Publish => PublishInv(cfg, nOut, s);
    case Release => ReleaseInv(cfg, nOut, s);
    case SeeFilled => OutStepInv(cfg, nOut, s, a);
    case WriteOut => OutStepInv(cfg, nOut, s, a);
    case ClearBlock => ClearInv(cfg, nOut, s);
    case FreeBlock => FreeInv(cfg, nOut, s);
  }

  lemma DoInv(cfg: Config, nOut: nat, s: Sys, a: Action)
    requires cfg.SpanFits() && PipeInv(cfg, nOut, s) && Enabled(cfg, nOut, s, a)
    ensures PipeInv(cfg, nOut, Do(cfg, nOut, s, a))
  {
    if IsConsumer(a) {
      ConsumerInv(cfg, nOut, s, a);
    } else if a.AcquireBlock? {
      AcquireStepInv(cfg, nOut, s);
    } else if Closes(cfg, s.net.net, a.p) {
      CloseStepInv(cfg, nOut, s, a.p);
    } else {
      ReceiveInv(cfg, nOut, s, a.p);
    }
  }
}
