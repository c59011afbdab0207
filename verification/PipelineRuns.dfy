/** Whole interleavings of the pipeline: lossless delivery in order, exclusive ownership of blocks and
    freedom from deadlock. */
module PipelineRuns {
  import opened Words
  import opened DivMod
  import opened Layout
  import opened Reassembler
  import opened History
  import opened Ring
  import opened Pipeline

  /** The state after some interleaved actions, if every one of them was enabled when taken. */
  function Exec(cfg: Config, nOut: nat, s: Sys, acts: seq<Action>): (r: Option<Sys>)
    requires SysShape(cfg, nOut, s)
    ensures r.Some? ==> SysShape(cfg, nOut, r.value)
  {
    if acts == [] then Some(s)
    else
      var before := Exec(cfg, nOut, s, acts[..|acts| - 1]);
      if before.Some? && Enabled(cfg, nOut, before.value, acts[|acts| - 1])
      then Some(Do(cfg, nOut, before.value, acts[|acts| - 1]))
      else None
  }

  lemma {:induction false} ExecInv(cfg: Config, nOut: nat, s: Sys, acts: seq<Action>)
    requires cfg.SpanFits() && PipeInv(cfg, nOut, s) && Exec(cfg, nOut, s, acts).Some?
    ensures PipeInv(cfg, nOut, Exec(cfg, nOut, s, acts).value)
  {
    if acts != [] {
      var front := acts[..|acts| - 1];
      ExecInv(cfg, nOut, s, front);
      DoInv(cfg, nOut, Exec(cfg, nOut, s, front).value, acts[|acts| - 1]);
    }
  }

  /** A state some interleaving reaches from start-up. */
  ghost predicate Reached(cfg: Config, nOut: nat, memory: seq<Block>, outMemory: seq<Block>, acts: seq<Action>,
                          s: Sys)
  {
    && cfg.Valid() && cfg.SpanFits() && cfg.instrument.Fast? && RingShape(cfg, memory) && 1 <= nOut == |outMemory|
    && Exec(cfg, nOut, Boot(cfg, nOut, memory, outMemory), acts) == Some(s)
  }

  lemma ReachedInv(cfg: Config, nOut: nat, memory: seq<Block>, outMemory: seq<Block>, acts: seq<Action>, s: Sys)
    requires Reached(cfg, nOut, memory, outMemory, acts, s)
    ensures PipeInv(cfg, nOut, s)
  {
    BootInv(cfg, nOut, memory, outMemory);
    ExecInv(cfg, nOut, Boot(cfg, nOut, memory, outMemory), acts);
  }

  // ---- one undisturbed pass of each consumer's loop

  /** What the GPU thread's loop works on: both rings, and its block indices. */
  datatype GpuView = GpuView(
    inFilled: seq<bool>, inBlocks: seq<Block>, outFilled: seq<bool>, outBlocks: seq<Block>, curIn: nat, curOut: nat)

  function GpuViewOf(s: Sys): GpuView {
    GpuView(s.inFilled, s.net.net.blocks, s.outFilled, s.outBlocks, s.curIn, s.curOut)
  }

  predicate GpuViewOk(v: GpuView) {
    v.curIn < |v.inFilled| == |v.inBlocks| && v.curOut < |v.outFilled| == |v.outBlocks|
  }

  /** One pass of its loop: the input block goes to the output block, which is marked filled; the input
      block is marked free; both indices advance. */
  function GpuPassed(v: GpuView): GpuView
    requires GpuViewOk(v)
  {
    GpuView(v.inFilled[v.curIn := false], v.inBlocks,
            v.outFilled[v.curOut := true], v.outBlocks[v.curOut := v.inBlocks[v.curIn]],
            Wrap(v.curIn + 1, |v.inFilled|), Wrap(v.curOut + 1, |v.outFilled|))
  }

  /** The five steps of the GPU thread's loop body, once both its waits can return. */
  function GpuLoop(cfg: Config, nOut: nat, s: Sys): Sys
    requires SysShape(cfg, nOut, s) && s.gpuPc.AwaitFilled? && s.inFilled[s.curIn] && !s.outFilled[s.curOut]
  {
    var s1 := Do(cfg, nOut, s, SeeInput);
    var s2 := Do(cfg, nOut, s1, SeeOutput);
    var s3 := Do(cfg, nOut, s2, CopyBlock);
    var s4 := Do(cfg, nOut, s3, Publish);
    Do(cfg, nOut, s4, Release)
  }

  /** Taken together they are one pass of the loop, and change nothing but what the loop works on, the
      counts of blocks published and released, and the rings' contents. */
  lemma GpuPass(cfg: Config, nOut: nat, s: Sys)
    requires SysShape(cfg, nOut, s) && s.gpuPc.AwaitFilled? && s.inFilled[s.curIn] && !s.outFilled[s.curOut]
    ensures var r := GpuLoop(cfg, nOut, s);
      && GpuViewOf(r) == GpuPassed(GpuViewOf(s))
      && r == s.(inFilled := r.inFilled, outFilled := r.outFilled, outBlocks := r.outBlocks,
                 curIn := r.curIn, curOut := r.curOut, published := s.published + 1, released := s.released + 1)
  {
  }

  /** What the output thread's loop works on: the output ring and its block index. */
  datatype OutputView = OutputView(filled: seq<bool>, blocks: seq<Block>, idx: nat)

  function OutputViewOf(s: Sys): OutputView {
    OutputView(s.outFilled, s.outBlocks, s.outIdx)
  }

  /** One pass of its loop: the block is zeroed and marked free, and the index advances. */
  function OutputPassed(v: OutputView): OutputView
    requires v.idx < |v.filled| == |v.blocks|
  {
    OutputView(v.filled[v.idx := false], v.blocks[v.idx := Zeroed(v.blocks[v.idx])], Wrap(v.idx + 1, |v.filled|))
  }

  /** The four steps of the output thread's loop body, once its wait can return. */
  function OutputLoop(cfg: Config, nOut: nat, s: Sys): Sys
    requires SysShape(cfg, nOut, s) && s.outPc.AwaitBlock? && s.outFilled[s.outIdx]
  {
    var s1 := Do(cfg, nOut, s, SeeFilled);
    var s2 := Do(cfg, nOut, s1, WriteOut);
    var s3 := Do(cfg, nOut, s2, ClearBlock);
    Do(cfg, nOut, s3, FreeBlock)
  }

  /** Taken together they are one pass of the loop, which consumes the block at the index. */
  lemma OutputPass(cfg: Config, nOut: nat, s: Sys)
    requires SysShape(cfg, nOut, s) && s.outPc.AwaitBlock? && s.outFilled[s.outIdx]
    ensures var r := OutputLoop(cfg, nOut, s);
      && OutputViewOf(r) == OutputPassed(OutputViewOf(s))
      && r == s.(outFilled := r.outFilled, outBlocks := r.outBlocks, outIdx := r.outIdx,
                 consumed := s.consumed + [s.outBlocks[s.outIdx]], freed := s.freed + 1)
  {
  }

  // ---- a lossless FIFO

  function LogBlocks(log: seq<Filled>): seq<Block> {
    seq(|log|, i requires 0 <= i < |log| => log[i].block)
  }

  /** `count` blocks read from a ring, from position `lo` on. */
  function ReadRing(ring: seq<Block>, lo: nat, count: nat): seq<Block>
    requires 1 <= |ring|
  {
    seq(count, i requires 0 <= i < count => ring[Wrap(lo + i, |ring|)])
  }

  /** What is between the net thread and the output thread: the output ring's blocks not yet
      consumed, then the input ring's blocks not yet published. */
  function InFlight(cfg: Config, nOut: nat, s: Sys): seq<Block>
    requires SysShape(cfg, nOut, s) && |s.consumed| <= s.published <= |s.net.log|
  {
    ReadRing(s.outBlocks, |s.consumed|, s.published - |s.consumed|)
    + ReadRing(s.net.net.blocks, s.published, |s.net.log| - s.published)
  }

  lemma HeldBlocks(ring: seq<Block>, n: nat, lo: nat, hi: nat, log: seq<Filled>, from: nat)
    requires Holds(ring, n, lo, hi, log) && lo <= from <= hi
    ensures ReadRing(ring, from, hi - from) == LogBlocks(log)[from..hi]
  {
    var read, want := ReadRing(ring, from, hi - from), LogBlocks(log)[from..hi];
    forall i | 0 <= i < hi - from
      ensures read[i] == want[i]
    {
      assert ring[Wrap(from + i, n)] == log[from + i].block;
    }
  }

  lemma Glue(blocks: seq<Block>, i: nat, j: nat, first: seq<Block>, second: seq<Block>, third: seq<Block>)
    requires i <= j <= |blocks|
    requires first == blocks[..i] && second == blocks[i..j] && third == blocks[j..|blocks|]
    ensures first + (second + third) == blocks
  {
  }

  lemma ConsumedPrefix(nOut: nat, s: Sys)
    requires 1 <= nOut && OutputOk(nOut, s)
    ensures |s.consumed| <= |s.net.log| && s.consumed == LogBlocks(s.net.log)[..|s.consumed|]
  {
  }

  lemma FifoState(cfg: Config, nOut: nat, s: Sys)
    requires SysShape(cfg, nOut, s) && InputOk(cfg, s) && OutputOk(nOut, s) && s.released <= s.published
    ensures |s.consumed| <= s.published <= |s.net.log|
    ensures s.consumed + InFlight(cfg, nOut, s) == LogBlocks(s.net.log)
  {
    var i, j, fills := |s.consumed|, s.published, |s.net.log|;
    ConsumedPrefix(nOut, s);
    HeldBlocks(s.outBlocks, nOut, s.freed + (if s.outPc.Freeing? then 1 else 0), j, s.net.log, i);
    HeldBlocks(s.net.net.blocks, cfg.nBlocks, s.released, fills, s.net.log, j);
    Glue(LogBlocks(s.net.log), i, j, s.consumed,
         ReadRing(s.outBlocks, i, j - i), ReadRing(s.net.net.blocks, j, fills - j));
  }

  /** The pipeline is a lossless FIFO: in every interleaving, the blocks consumed followed by those in
      the output ring and those in the input ring are exactly the blocks the net thread marked filled,
      in order, header and data unchanged. */
  lemma LosslessFifo(cfg: Config, nOut: nat, memory: seq<Block>, outMemory: seq<Block>, acts: seq<Action>, s: Sys)
    requires Reached(cfg, nOut, memory, outMemory, acts, s)
    ensures |s.consumed| <= s.published <= |s.net.log|
    ensures s.consumed + InFlight(cfg, nOut, s) == LogBlocks(s.net.log)
    ensures s.consumed <= LogBlocks(s.net.log)
  {
    ReachedInv(cfg, nOut, memory, outMemory, acts, s);
    FifoState(cfg, nOut, s);
  }

  // ---- exclusive ownership

  /** The filled input blocks are one cyclic range from the GPU's index up to the net thread's block,
      which with its successor (unless still waited for) is free. */
  lemma FilledIsCyclicRange(cfg: Config, nOut: nat, memory: seq<Block>, outMemory: seq<Block>, acts: seq<Action>,
                            s: Sys)
    requires Reached(cfg, nOut, memory, outMemory, acts, s)
    ensures FlagsMatch(s.inFilled, cfg.nBlocks, s.released, |s.net.log|)
    ensures s.curIn == RingSlot(cfg, s.released) && s.net.net.blockI == RingSlot(cfg, |s.net.log|)
    ensures !s.inFilled[s.net.net.blockI]
    ensures s.netPc.Idle? ==> !s.inFilled[NextBlock(cfg, s.net.net.blockI)]
    ensures !s.gpuPc.AwaitFilled? ==> s.inFilled[s.curIn]
  {
    ReachedInv(cfg, nOut, memory, outMemory, acts, s);
    OwnedSlots(cfg, s.net);
    NextFlag(s.inFilled, cfg.nBlocks, s.released, |s.net.log|);
    FirstFlag(s.inFilled, cfg.nBlocks, s.released, |s.net.log|);
    SecondFlag(s.inFilled, cfg.nBlocks, s.released, |s.net.log|);
  }

  /** Whatever the net thread does next, resync or not, it changes no filled block, so never the one
      the GPU thread is reading. */
  lemma NetWritesOnlyFreeBlocks(cfg: Config, nOut: nat, memory: seq<Block>, outMemory: seq<Block>, acts: seq<Action>,
                                s: Sys, a: Action, b: nat)
    requires Reached(cfg, nOut, memory, outMemory, acts, s) && Enabled(cfg, nOut, s, a) && !IsConsumer(a)
    requires b < cfg.nBlocks && Do(cfg, nOut, s, a).net.net.blocks[b] != s.net.net.blocks[b]
    ensures b == s.net.net.blockI || b == NextBlock(cfg, s.net.net.blockI)
    ensures !s.inFilled[b] && (s.gpuPc.AwaitFilled? || b != s.curIn)
  {
    ReachedInv(cfg, nOut, memory, outMemory, acts, s);
    FilledIsCyclicRange(cfg, nOut, memory, outMemory, acts, s);
    if b != s.net.net.blockI && b != NextBlock(cfg, s.net.net.blockI) {
      match a
      case Receive(p) =>
        if !Closes(cfg, s.net.net, p) {
          StepTouches(cfg, s.net, p, b);
        }
      case AcquireBlock =>
        FinishTouches(cfg, s.net, s.netPc.p, b);
    }
  }

  /** The GPU and output threads never hold the same output block. */
  lemma OutputBlocksExclusive(cfg: Config, nOut: nat, memory: seq<Block>, outMemory: seq<Block>, acts: seq<Action>,
                              s: Sys)
    requires Reached(cfg, nOut, memory, outMemory, acts, s)
    requires (s.gpuPc.Copying? || s.gpuPc.Publishing?) && !s.outPc.AwaitBlock?
    ensures s.curOut != s.outIdx && !s.outFilled[s.curOut] && s.outFilled[s.outIdx]
  {
    ReachedInv(cfg, nOut, memory, outMemory, acts, s);
    SlotsDiffer(s.freed, s.published, nOut);
    FirstFlag(s.outFilled, nOut, s.freed, s.published);
    NextFlag(s.outFilled, nOut, s.freed, s.published);
  }

  // ---- no deadlock

  function GpuProgress(pc: GpuPc): nat {
    match pc
    case AwaitFilled => 0
    case AwaitFree => 1
    case Copying => 2
    case Publishing => 3
    case Releasing => 8
  }

  function OutProgress(pc: OutPc): nat {
    match pc
    case AwaitBlock => 0
    case Writing => 1
    case Clearing => 2
    case Freeing => 3
  }

  /** Steps the consumers still have to do on what is in the rings. */
  function Pending(s: Sys): int {
    9 * (|s.net.log| - s.released) + 4 * (s.published - s.freed) - GpuProgress(s.gpuPc) - OutProgress(s.outPc)
  }

  lemma PendingNatural(cfg: Config, nOut: nat, s: Sys)
    requires SysShape(cfg, nOut, s) && RingsOk(cfg, nOut, s)
    ensures 0 <= Pending(s)
  {
  }

  /** Every step of the GPU or the output thread leaves strictly less to do. */
  lemma ConsumerProgress(cfg: Config, nOut: nat, s: Sys, a: Action)
    requires SysShape(cfg, nOut, s) && Enabled(cfg, nOut, s, a) && IsConsumer(a)
    ensures Pending(Do(cfg, nOut, s, a)) < Pending(s)
  {
  }

  predicate Blocked(cfg: Config, nOut: nat, s: Sys)
    requires SysShape(cfg, nOut, s)
  {
    s.netPc.Waiting? && s.inFilled[WaitedFor(cfg, s)]
  }

  /** While the net thread is blocked, the block it waits for is the GPU's, and a consumer can move. */
  lemma BlockedConsumersMove(cfg: Config, nOut: nat, s: Sys) returns (a: Action)
    requires PipeInv(cfg, nOut, s) && Blocked(cfg, nOut, s)
    ensures WaitedFor(cfg, s) == s.curIn
    ensures IsConsumer(a) && Enabled(cfg, nOut, s, a)
  {
    WaitBlocked(cfg, s);
    FirstFlag(s.inFilled, cfg.nBlocks, s.released, |s.net.log|);
    FirstFlag(s.outFilled, nOut, s.freed, s.published);
    NextFlag(s.outFilled, nOut, s.freed, s.published);
    match s.gpuPc
    case AwaitFilled => a := SeeInput;
    case Copying => a := CopyBlock;
    case Publishing => a := Publish;
    case Releasing => a := Release;
    case AwaitFree =>
      match s.outPc
      case AwaitBlock => a := if s.outFilled[s.curOut] then SeeFilled else SeeOutput;
      case Writing => a := WriteOut;
      case Clearing => a := ClearBlock;
      case Freeing => a := FreeBlock;
  }

  ghost predicate AllConsumers(acts: seq<Action>) {
    forall i :: 0 <= i < |acts| ==> IsConsumer(acts[i])
  }

  /** The consumers cannot run for ever without the net thread: `Pending` bounds their steps. */
  lemma {:induction false} ConsumersTerminate(cfg: Config, nOut: nat, s: Sys, acts: seq<Action>)
    requires SysShape(cfg, nOut, s) && RingsOk(cfg, nOut, s) && AllConsumers(acts)
    requires Exec(cfg, nOut, s, acts).Some?
    ensures RingsOk(cfg, nOut, Exec(cfg, nOut, s, acts).value)
    ensures Pending(Exec(cfg, nOut, s, acts).value) + |acts| <= Pending(s)
    ensures Exec(cfg, nOut, s, acts).value.net == s.net && Exec(cfg, nOut, s, acts).value.netPc == s.netPc
  {
    if acts != [] {
      var front := acts[..|acts| - 1];
      ConsumersTerminate(cfg, nOut, s, front);
      var r := Exec(cfg, nOut, s, front).value;
      ConsumerInv(cfg, nOut, r, acts[|acts| - 1]);
      ConsumerProgress(cfg, nOut, r, acts[|acts| - 1]);
    }
  }

  /** Deadlock freedom: however the consumers are scheduled while the net thread waits, they take at
      most `Pending` steps, and they cannot stop before its block is free. */
  lemma WaitIsServed(cfg: Config, nOut: nat, memory: seq<Block>, outMemory: seq<Block>, before: seq<Action>,
                     s: Sys, acts: seq<Action>)
    requires Reached(cfg, nOut, memory, outMemory, before, s) && s.netPc.Waiting?
    requires AllConsumers(acts) && Exec(cfg, nOut, s, acts).Some?
    ensures |acts| <= Pending(s)
    ensures var r := Exec(cfg, nOut, s, acts).value;
      Enabled(cfg, nOut, r, AcquireBlock) || exists a :: IsConsumer(a) && Enabled(cfg, nOut, r, a)
  {
    var r := Exec(cfg, nOut, s, acts).value;
    ReachedInv(cfg, nOut, memory, outMemory, before, s);
    ConsumersTerminate(cfg, nOut, s, acts);
    PendingNatural(cfg, nOut, r);
    if Blocked(cfg, nOut, r) {
      var a := BlockedConsumersMove(cfg, nOut, r);
    }
  }
}
