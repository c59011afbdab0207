# The SETI spectrometer's data path, modelled and proved

This project models how the spectrometer takes telescope data from the network to its output thread,
and proves what that path promises. Three threads share two rings of memory blocks. The net thread
files packets by their counter (`mcnt`) into a ring of input blocks. The GPU thread passes filled input
blocks on to a ring of output blocks. The output thread takes filled output blocks to the output file,
zeroes them and frees them. A fourth part, the polyphase filter bank's FIR kernel, is modelled one work-item at a time.

## How the model is laid out

- `Words`, `DivMod`: the program's 64-bit arithmetic, and the division facts the proofs share.
- `Layout`, `Headers`, `CornerTurn`, `Placement`: build constants (kept symbolic), the three instruments'
  header words, and where a payload lands in a block: Arecibo (S6), Green Bank (DIBAS, with its corner
  turn) and FAST. `Layout.Place` defines word by word what a packet writes; `CornerTurn` and `Placement`
  say what that means in plain arithmetic on the packet's fields.
- `Reassembler`: one call of `process_packet` as a function on states (`Step`), all mcnt sums and
  differences taken modulo 2^64. The two source files' state machine is the same, so there is one.
- `History`: the same state with a ghost record: what each owned block was given since it was
  initialised and which packet it was initialised for, and a log of every block marked filled and the
  packet that closed it (`Track`, `TStep`, `TRun`). It never influences a step.
- `Window`, `Exactness`, `Counts`, `Openers`, `NoLoss`, `Recovery`: the invariant of the two-block
  window, what filled blocks and their headers hold, when nothing is lost, and what a resynchronisation
  costs.
- `InputRing`, `NetThread`, `ConsumerThreads`: the same program parts as classes over arrays, each
  method proved to move the state by the corresponding function.
- `Ring`, `Pipeline`, `PipelineRuns`: the three threads interleaved, for the FAST build. Waiting on a
  block's status is the guard of a step; the loop bodies are cut between every two status operations.
- `Contents`, `EndToEnd`: what filled blocks hold as a function of the stream and of the ring's memory at
  start-up, and what the output thread receives of a stream, resyncs included, in every interleaving.
- `PfbFir`: the FIR kernel over the reals.

## What is assumed of the build and of callers

- `nm` (mcnts per block) and the number of input blocks are at least 2, and one turn of the ring is at
  most 2^56 mcnts. The checked-in FAST constants make `nm` zero (256 time samples divided by 4096
  spectra per packet, `src/s6_databuf.h:72`), which no part of the code can work with; the model takes
  `nm` as a parameter. With `nm` = 1 the closing distance `3*(nm/2)` would be 0.
- A packet's payload has a size the instrument sends: exactly one packet's worth of sub-spectra at
  Green Bank, at most one row elsewhere. The size check in the `recvmmsg` build looks at a variable
  that no received packet sets (`src/s6_net_thread.cpp:892`), so the size is a precondition here.
- Green Bank packets hold at most 256 spectra, so the 64-bit number of a spectrum does not wrap.

## Where code and comments differ

- The comment on resynchronisation asks for the first value at or after the packet's mcnt that keeps
  the databuf block. The code rounds down, so a packet already in the owned ring slot and past the
  start of its block gets a window that starts before it. `Window.ResyncStartAgainstPacket` says
  exactly when the comment holds.
- `out_of_seq_cnt` is not cleared by a resynchronisation, only by the next packet in the window; until
  then every further out-of-sequence packet resets again (`Recovery.ResetsUntilInWindow`). The model
  keeps this.
- A packet with a bad source id still closes a block, clears the out-of-sequence count and bumps the
  block's packet counter before it is rejected, and the call then reports no closed block even if it
  closed one. The packet that triggers a reset is not stored. The model keeps both.
- The first two blocks are initialised at start-up with zeros, not for a packet. Unless a reset recycles
  them they reach the output thread with source id 0, whatever source the packets come from; every later
  block carries the source id of a packet received (`EndToEnd.OutputHeader`).
- `missed_pkts` is unsigned. A duplicate packet makes it too small, and more packets than `nm` wrap it
  round; `Exactness.MissedCountExact` and `Exactness.CountersConserve` give the exact conditions.
- `write_to_file` opens the same file for writing for every block (`src/s6_output_thread.cpp:38`), so the
  file holds only the last block written. The end-to-end results speak of the blocks consumed.
- The FIR kernel takes any `step` and `stepy`. Given enough groups its work-items cover the output exactly
  if `step` divides `stepy`, or the output ends within the first group's whole rows
  (`PfbFir.OutputCoveredIff`); the kernel does not check that.

## Model

| member | source | states |
|---|---|---|
| Words.SignedDistance | src/s6_net_thread.cpp:508 | The unsigned 64-bit difference of two mcnts, stored in a signed variable, is the true distance if and only if that distance fits a signed 64-bit word. |
| Window.MachineArithmeticFaithful | src/s6_net_thread.cpp:504-627 | In every state the invariant allows, the wrapped distance is the true one, no mcnt sum wraps, and in-window, late and out-of-sequence are exactly three disjoint intervals of it, covering every packet. |
| Window.ClassesPlainly | src/s6_net_thread.cpp:523-604 | In every state the invariant allows, a packet is in the window within `2*nm` mcnts from its start, late if less than two turns of the ring behind it, and out of sequence otherwise. |
| Window.StartInv | src/s6_net_thread.cpp:405-429 | Start-up, whatever the ring memory held, establishes the window invariant for blocks 0 and 1 at mcnts 0 and `nm`, with every field of the block information as `initialize_block_info` sets it. |
| Window.CloseInv | src/s6_net_thread.cpp:523-542 | When a packet closes the current block, neither sequence warning of `set_block_filled` can fire, the logged block meets its description, and the packet is in the new current block. |
| Window.AcquireInv | src/s6_net_thread.cpp:544-564 | The block re-initialised for the packet's mcnt plus `nm` is exactly the block that was waited for, and the full invariant is restored. |
| Window.FileInv | src/s6_net_thread.cpp:566-600 | Every in-window packet is counted in and unpacked into the one of the two owned blocks whose mcnt range it is in. |
| Window.ResyncLandsOnOwnedSlot | src/s6_net_thread.cpp:632-646 | The new start is a multiple of `nm` in the ring slot already owned, and its block is the first in that slot from the packet's own block on. |
| Window.ResyncStartBounds | src/s6_net_thread.cpp:636-644 | A reset puts the start less than `nm` before the packet and at most `nBlocks - 1` blocks after it. |
| Window.ResyncStartAgainstPacket | src/s6_net_thread.cpp:633-644 | The start is at or after the packet, as the comment asks, if and only if the packet is in another ring slot or begins its block. |
| Window.ResyncKeepsBlocks | src/s6_net_thread.cpp:653-661 | A reset re-initialises exactly the two owned blocks, with headers for the new start and its successor, keeps their data, and touches no other block. |
| Window.StepInv | src/s6_net_thread.cpp:475-667 | Every call of `process_packet` keeps the window invariant: start aligned, ring slot matching, both headers carrying their mcnts, data and missed counters of both blocks accounted for by the packets filed. |
| Window.StepMoves | src/s6_net_thread.cpp:523-664 | Each call does one of three things: advance the window by one block and log the block closed; reset it with both blocks empty; or leave window and log alone. |
| Window.RunInv | src/s6_net_thread.cpp:915-921 | The window invariant holds after any sequence of packets. |
| Exactness.DataAreLastWrites | src/s6_net_thread.cpp:584-596 | After any packets, a word of a block holds what the last packet to write it wrote, and a word no packet wrote is unchanged. |
| Exactness.SlotsWithinBlock | src/s6_net_thread.cpp:588-589 | Two packets of a block share a slot if and only if they share the mcnt and, at Arecibo, the beam. |
| Layout.WritesOwnSlot | src/s6_pktsock_thread.cpp:607-651 | On all three instruments a packet writes only words of its own slot. |
| Layout.WritesInsideBlock | src/s6_pktsock_thread.cpp:607-651 | On all three instruments every word a packet with a valid source id writes lies inside the block's data. |
| Layout.SlotInside | src/s6_pktsock_thread.cpp:607-651 | A packet with a valid source id has one of the block's slots, and at Arecibo and FAST there is room for a whole row there. |
| Placement.PayloadInPlace | src/s6_net_thread.cpp:584-596 | At Arecibo and FAST an accepted packet's payload goes word by word to `((Arecibo: sid*nm) + mcnt % nm)` rows into the block, whole 32-byte units only at Arecibo, and changes no other word. |
| Placement.SamplesInPlace | src/s6_pktsock_thread.cpp:607-651 | At Arecibo and FAST, whatever order a block's packets come in, word c of the payload of each is at column c of the row of its own mcnt (in its own beam's part). |
| Placement.BlockInPlace | src/s6_pktsock_thread.cpp:607-651 | When a block's packets have arrived once each with full rows, every word of its rows is a sample: row r holds mcnt `start + r % nm`, of beam `r / nm` at Arecibo, in payload order. |
| Exactness.OrderIndependent | src/s6_net_thread.cpp:584-596 | Packets for distinct slots, unpacked in any order, leave the same data. |
| Exactness.FilledBlocksAgree | src/s6_net_thread.cpp:533-600 | Two blocks filled in any two runs from the same data with the same accepted packets in distinct slots, in whatever orders, hold the same data. |
| Exactness.SeenCount | src/s6_net_thread.cpp:581-582 | Pigeonhole: the distinct mcnts charged to a counter are as many as the packets charged to it if and only if none repeats. |
| Exactness.MissedCountExact | src/s6_net_thread.cpp:392-394 | `missed_pkts[c]` equals the number of the block's mcnts for which counter `c` saw no packet if and only if no accepted packet was a duplicate; it is then `nm` less the packets accepted. `Counts` says which source ids counter `c` sees. |
| Counts.MissedOfSource | src/s6_net_thread.cpp:581-582 | At Arecibo and Green Bank `missed_pkts[s]` is `nm` less the packets counted in the block whose source id is s, modulo 2^64, for every s. |
| Counts.MissedAtFast | src/s6_pktsock_thread.cpp:596-602 | At FAST `missed_pkts[0]` is `nm` less the packets counted in the block with a source id in range, modulo 2^64, and the other counters stay at `nm`. |
| Counts.MissedMcntsOfSource | src/s6_net_thread.cpp:581-582 | With no packet of source s repeated, `missed_pkts[s]` is the number of the block's mcnts for which no packet of source s was counted. |
| Counts.MissedMcntsAtFast | src/s6_pktsock_thread.cpp:596-602 | With no accepted mcnt repeated, FAST's `missed_pkts[0]` is the number of the block's mcnts for which no packet with a source id in range was counted. |
| Exactness.MissingSlotsUntouched | src/s6_net_thread.cpp:581-596 | An mcnt is missing from a counter (at Green Bank: from all of them) if and only if the block's slot for it was given no accepted packet, and then every word of that slot is as it was when the block was initialised. |
| Exactness.EachChargedOnce | src/s6_pktsock_thread.cpp:596-602 | Every accepted packet is charged to exactly one missed-packet counter. |
| Exactness.CountersConserve | src/s6_net_thread.cpp:306-316 | Missed counters plus the block's packet counter equal `nm` per counter plus the bad-source packets, up to exactly one 2^64 for each counter charged more than `nm` times, none of which occur if and only if every counter stayed within `nm`. |
| Exactness.FillsCyclicAndConsecutive | src/s6_net_thread.cpp:279-295 | Over every run from start-up, resyncs included, the blocks filled take ring slots 0, 1, 2, ... in strict rotation, and between resyncs their mcnts differ by exactly `nm`. |
| Exactness.FillsInRotation | src/s6_net_thread.cpp:155-158 | The i-th block filled since start-up lies in ring slot i modulo the ring, which is the slot of its mcnt, and its header carries that mcnt. |
| Exactness.LateReports | src/s6_net_thread.cpp:604-615 | Over every run, a dropped late packet is reported if and only if a block has been filled since start-up or since the last resync. |
| NoLoss.ArrivalClass | src/s6_net_thread.cpp:523-604 | In a stream that respects the reordering bounds, no packet is ever out of sequence, and the late ones are exactly those below the window's first start. |
| NoLoss.NoLossUnderBoundedReordering | src/s6_net_thread.cpp:523-615 | If no packet lies below the window's start, each is in the first window or at most `2*nm-3*(nm/2)` beyond an earlier one, and at most `3*(nm/2)-nm` behind any earlier one, then every packet is in the window as it arrives, no resync happens, and each filled block was given exactly the stream's packets of its range, in order. |
| NoLoss.EveryPacketFiled | src/s6_net_thread.cpp:523-600 | Then every packet of the stream is in the current block, the next block, or a block filled since. |
| NoLoss.FilledHoldsStream | src/s6_net_thread.cpp:533-600 | Then each filled block carries its mcnt in its header, and its data are the stream's accepted packets for that range laid over what it held before. |
| NoLoss.BehindBoundTight | src/s6_net_thread.cpp:527-604 | The bound behind cannot be relaxed: one mcnt more and there is a packet dropped as late. |
| NoLoss.AheadBoundTight | src/s6_net_thread.cpp:523-617 | The bound ahead cannot be relaxed: one mcnt more and there is a packet dropped as out of sequence. |
| Recovery.OutsideLeavesNoTrace | src/s6_net_thread.cpp:604-632 | Packets outside the window change nothing but the out-of-sequence count, until there is one too many. |
| Recovery.OutOfSeqCounts | src/s6_net_thread.cpp:566-626 | Over any run, resets included, the out-of-sequence count is the number of packets that arrived out of sequence since the last packet in the window. |
| Recovery.ResyncExactlyWhenTooMany | src/s6_pktsock_thread.cpp:370-685 | After any run, resets included, a packet resets the window if and only if it is out of sequence and twice as many packets as there are counters, or more, were since the last packet in the window. |
| Recovery.ResetsUntilInWindow | src/s6_net_thread.cpp:625-661 | After a reset every further out-of-sequence packet resets again, until a packet is in the window: the number of resets is one more than the number of such packets. |
| Recovery.AfterReset | src/s6_net_thread.cpp:632-661 | A reset leaves an empty, valid window close to the triggering packet, with the ring slot and the log unchanged. |
| Recovery.ResyncRecovers | src/s6_net_thread.cpp:604-663 | A stream that continues from the trigger within the reordering bounds causes no second reset, loses only packets below the new start, all as late, and every block filled after that holds exactly the stream's packets for its range. |
| NetThread.NetThread.constructor | src/s6_net_thread.cpp:781-805 | The two-block start-up, on arrays, reaches the reassembler's start state with both blocks free. |
| NetThread.NetThread.CloseBlock | src/s6_net_thread.cpp:270-341 | Marks the block of `mcnt_start` filled, changes no other block's status, returns its mcnt, reports whether a sequence warning was printed, and advances the window. |
| NetThread.NetThread.AcquireNext | src/s6_net_thread.cpp:544-563 | Waits for the block after the new current one, then initialises the block `nm` past the packet and clears the waited-for block's counter. |
| NetThread.NetThread.FilePacket | src/s6_net_thread.cpp:566-596 | Counts the packet, clears the out-of-sequence count, and unpacks it only if its source id is below the number of sources. |
| NetThread.NetThread.ResyncBase | src/s6_net_thread.cpp:633-642 | The packet's mcnt goes up by whole blocks, fewer than the ring has, with no wrap, into the first block from its own on that lies in the ring slot owned. |
| NetThread.NetThread.ResyncWindow | src/s6_net_thread.cpp:636-661 | In place, moves the window as `Reassembler.Resync` describes: start, late-report limit, block index, both headers and both counters. |
| NetThread.NetThread.ProcessPacket | src/s6_net_thread.cpp:475-667 | In place, one step of the reassembler. Returns a value exactly when the call filled a block and the packet's source id is in range, and then the mcnt in the header of the block filled; reports a packet exactly when it is less than two turns of the ring late and the start has passed the late-report limit; never a sequence warning; only the block filled and the one awaited change status. |
| NetThread.NetThread.ProcessVector | src/s6_net_thread.cpp:913-921 | A received vector of packets moves the state by the whole run; what is reported is the header mcnt of the last block filled by a packet with its source id in range, and nothing if there was none. |
| InputRing.InputDatabuf.InitializeBlock | src/s6_pktsock_thread.cpp:381-398 | The block in slot `(mcnt / nm) % nBlocks` gets the mcnt rounded down, the packet's first channel, channel count and source id in its header and `nm` in every missed counter; data and all other blocks are unchanged. |
| Reassembler.InitBlockPlainly | src/s6_pktsock_thread.cpp:381-398 | The same of the ring as a value, field by field. |
| Openers.RunOpeners | src/s6_pktsock_thread.cpp:574-578 | Over every run, every block was initialised for a packet received, except the first two at start-up; without a reset in between, for the packet that closed the block two before it. |
| Openers.FilledHeader | src/s6_pktsock_thread.cpp:393-397 | Hence every filled block's header carries that packet's first channel, channel count and source id, or zeros for the first two. |
| InputRing.InputDatabuf.S6Memcpy | src/s6_net_thread.cpp:190-226 | Copies whole 32-byte units, drops the remainder, and changes no other word of any block. |
| InputRing.InputDatabuf.UnpackRow | src/s6_net_thread.cpp:588-596 | Arecibo and FAST unpacking: the block's data become exactly `Layout.Place` of the packet, other blocks unchanged. |
| InputRing.InputDatabuf.UnpackDibas | src/s6_pktsock_thread.cpp:615-638 | Green Bank unpacking by nested loops and an advancing source pointer: the block's data become exactly `Layout.Place` of the packet, other blocks unchanged. |
| InputRing.InputDatabuf.UnpackPacket | src/s6_pktsock_thread.cpp:596-651 | One accepted packet's whole effect on the ring: its missed counter down by one, its words in place, nothing else. |
| InputRing.RunOfWords | src/s6_pktsock_thread.cpp:623-637 | The words one inner-loop copy writes are exactly those that spectrum and sub-spectrum own, with the payload words they should have. |
| InputRing.SpectrumRow | src/s6_pktsock_thread.cpp:621-631 | The row computed from the 64-bit spectrum number is the packet's place in the block times the spectra per packet plus the spectrum's index. |
| CornerTurn.DestInjective | src/s6_pktsock_thread.cpp:619-636 | The loops' destination map is one to one. |
| CornerTurn.DestOnto | src/s6_pktsock_thread.cpp:619-636 | The loops' destination map reaches every word of the block. |
| CornerTurn.MapsInRange | src/s6_pktsock_thread.cpp:619-636 | Destinations stay inside the block and sources inside the payload. |
| CornerTurn.SamplesTurned | src/s6_pktsock_thread.cpp:619-636 | With distinct mcnts in any order, word `(k*(S*nm) + (mcnt - start)*S + i)*rowWords + c` of the block is word `(i*nSub + k)*rowWords + c` of the packet's payload, for each spectrum i, sub-spectrum k and column c. |
| CornerTurn.CornerTurnComplete | src/s6_pktsock_thread.cpp:615-638 | When a block's `nm` packets arrive once each in any order, every word of the block is the sample the corner turn assigns to it: row t of a sub-spectrum is that sub-spectrum of spectrum t mod S in the packet t div S of the block. |
| Headers.S6HeaderRoundTrip | src/s6_net_thread.cpp:232-235 | The Arecibo header word is mcnt * 2^16 + pchan * 2^4 + sid of the decoded fields, each in its range; encoding and decoding are inverse in both directions. |
| Headers.DibasHeaderRoundTrip | src/s6_pktsock_thread.cpp:217-220 | The Green Bank header word is node * 2^56 + mcnt, the source id is the node, and the first channel the node times the channels per node; encoding and decoding are inverse in both directions. |
| Headers.FastHeaderRoundTrip | src/s6_pktsock_thread.cpp:222-231 | Decoding recovers mcnt, beam and polarisation whatever the unused bits hold. |
| Headers.FastFields | src/s6_pktsock_thread.cpp:222-231 | The FAST mcnt is the low 56 bits, and the source id the next six bits (beam, then polarisation) less 2, wrapping to a huge value for beam 0. |
| Headers.FastSourceRange | src/s6_pktsock_thread.cpp:341-346 | A FAST source id passes the range check if and only if the beam is 1 up to the number of beams (beam 0 wraps and fails), and sid/2 and sid%2 then recover beam and polarisation. |
| Headers.DecodedPacketOk | src/s6_pktsock_thread.cpp:208-234 | Whatever header arrives, the decoded mcnt fits its 48- or 56-bit field, so the reassembler's guarantees cover the packet. |
| ConsumerThreads.GpuThread.ProcessBlock | src/s6_gpu_thread.cpp:208-313 | One pass of the loop on arrays: the output block becomes the input block, header and data; input ring contents unchanged; one block filled, one freed, both indices advanced: the pass the pipeline's GPU steps make up. |
| ConsumerThreads.OutputThread.ProcessBlock | src/s6_output_thread.cpp:166-446 | One pass of the loop on arrays: beam and polarisation recover the source id; the block's data replace the file's contents if and only if in test mode or told to run always; every field and word of the block is then zero and it is free, other blocks unchanged: the pass the pipeline's output steps make up. |
| Ring.NextFlag | src/s6_net_thread.cpp:544-547 | In a cyclic range of filled flags, the producer's next block is filled if and only if the ring is full. |
| Ring.SecondFlag | src/s6_net_thread.cpp:544-547 | The block after it is filled if and only if it is the one the consumer takes next. |
| Pipeline.BootInv | src/s6_net_thread.cpp:781-805 | The three threads' start states satisfy the pipeline invariant, for any ring sizes and memory contents. |
| Pipeline.DoInv | src/s6_gpu_thread.cpp:150-313 | Every enabled step of any of the three threads keeps the pipeline invariant. |
| PipelineRuns.GpuPass | src/s6_gpu_thread.cpp:158-313 | The GPU thread's five steps, taken together, are the pass `GpuPassed` that the class's `ProcessBlock` performs on the same rings and indices, and touch nothing else but the counts of blocks published and released. |
| PipelineRuns.OutputPass | src/s6_output_thread.cpp:146-446 | The output thread's four steps, taken together, are the pass `OutputPassed` that the class's `ProcessBlock` performs on the same ring and index, and consume the block at that index. |
| PipelineRuns.LosslessFifo | src/s6_gpu_thread.cpp:150-313 | In every interleaving, the blocks consumed, then those in the output ring, then those in the input ring, are exactly the blocks marked filled, in order, unchanged. |
| PipelineRuns.FilledIsCyclicRange | src/s6_gpu_thread.cpp:158-170 | In every reachable state the filled input blocks are one cyclic range from the GPU's index up to the net thread's block; that block, and unless still awaited its successor, are free. |
| PipelineRuns.NetWritesOnlyFreeBlocks | src/s6_net_thread.cpp:533-661 | In every reachable state, any input block the net thread's next step changes, resyncs included, is one of its two, is free, and is not the one the GPU holds. |
| PipelineRuns.OutputBlocksExclusive | src/s6_gpu_thread.cpp:185-199 | The GPU and the output thread never hold the same output block. |
| PipelineRuns.ConsumerProgress | src/s6_gpu_thread.cpp:307-313 | Every consumer step strictly decreases the amount of pending work. |
| PipelineRuns.BlockedConsumersMove | src/s6_net_thread.cpp:544-558 | While the net thread is blocked, the block it waits for is the one the GPU consumes next, and some consumer step is enabled. |
| PipelineRuns.ConsumersTerminate | src/s6_output_thread.cpp:441-446 | The consumers take at most as many steps as there is pending work, and leave the net thread's state alone. |
| PipelineRuns.WaitIsServed | src/s6_net_thread.cpp:544-558 | Deadlock freedom: from any reachable wait, under any schedule, the consumers cannot stop before the awaited block is free, and cannot run for ever. |
| EndToEnd.NetRunsAlone | src/s6_net_thread.cpp:913-921 | Whatever the interleaving, the net thread's state is that of the plain packet loop on the packets received so far. |
| EndToEnd.OutputHoldsStream | src/s6_output_thread.cpp:136-446 | For a stream that begins in the first window and respects the reordering bounds, in every interleaving the i-th block consumed carries mcnt `nm*i`, and its data are exactly the stream's accepted packets for that range over what the block held when acquired. |
| EndToEnd.OutputAfterResync | src/s6_net_thread.cpp:617-661 | Whatever came before, at start-up or later: once packets outside the window trigger a reset and the stream continues from the trigger within the bounds, in every interleaving the blocks consumed from there on are the stream's, in order from the reset's start, each with exactly the stream's accepted packets for its range. |
| Contents.RunInherits | src/s6_net_thread.cpp:381-401 | Without a reset, every block is initialised over what its ring slot was last filled with, or over the ring's memory at start-up. |
| Contents.ResetInherits | src/s6_net_thread.cpp:653-661 | A reset of a window that was given no packet leaves this so. |
| Contents.ContentOrderIrrelevant | src/s6_net_thread.cpp:584-600 | Streams of the same packets in different orders, with no two accepted packets for the same place, give every block the same data. |
| EndToEnd.OutputIsContent | src/s6_output_thread.cpp:136-446 | Once the packets settle on a stream, from the first packet on or after the start-up resync, the mcnt and every word of data of each block consumed are a function of the stream and the ring's memory at start-up alone, in every interleaving. |
| EndToEnd.OutputOrderIrrelevant | src/s6_output_thread.cpp:136-446 | Two pipelines over the same memory, fed the same packets in different orders and scheduled differently, with output rings of any sizes, give the output thread blocks with the same mcnts and data. |
| EndToEnd.OutputHeader | src/s6_pktsock_thread.cpp:393-397 | In every interleaving, the channel fields and source id of a consumed block are those of one packet received, for all but the first two blocks; without a reset in between, of the packet that closed the block two before it. |
| EndToEnd.OutputSource | src/s6_output_thread.cpp:167-170 | If all packets come from one source, the output thread reads that source id off every block but the first two, and off those too if a reset recycled them; otherwise off those it reads 0. |
| EndToEnd.OutputSamples | src/s6_pktsock_thread.cpp:639-650 | Once the packets settle on a stream with no accepted mcnt repeated, word c of the payload of every packet with its source id in range is, in every interleaving, word `(mcnt % nm)*rowWords + c` of the consumed block for its mcnt. |
| PfbFir.Prime | src/pfb_fir.cu:295-300 | With only the rows it reads in range, all but the last element of the rotating buffer hold the first input rows, and the offset has advanced past them. |
| PfbFir.FilterRow | src/pfb_fir.cu:328-333 | Reading the rotating buffer from its oldest sample on gives the direct sum of weights times strided input. |
| PfbFir.NextRow | src/pfb_fir.cu:316-334 | One pass of the loop overwrites the oldest sample with the new one and stores the direct sum of the row; the buffer then holds the rows the next pass needs. |
| PfbFir.FilterColumn | src/pfb_fir.cu:290-335 | Its loop: the rotating buffer gives every row reached the direct convolution of its column, and only rows reached are written. |
| PfbFir.WorkItem | src/pfb_fir.cu:272-335 | Given only that what it reads and writes is in range, element k of the output, d past the work-item's first one, becomes `weights[pos]*in[s] + weights[step+pos]*in[s+step] + weights[2*step+pos]*in[s+2*step] + weights[3*step+pos]*in[s+3*step]`, with s as far past the input offset, exactly when d is a multiple of `step` below `stepy / step * step` inside the output; no other element changes. |
| PfbFir.WritersUnique | src/pfb_fir.cu:279-284 | No output element is written by two work-items, nor twice by one. |
| PfbFir.CoveredIff | src/pfb_fir.cu:310-318 | Given enough groups, an output element is written if and only if it lies in its group's whole rows; the early break leaves out nothing. |
| PfbFir.OutputCoveredIff | src/pfb_fir.cu:310-318 | Given enough groups, for every `step` and `stepy`, the work-items cover the output if and only if `step` divides `stepy` or the output ends within the first group's whole rows. |

## Left out

- Sockets, multicast, `recvmmsg` and frame handling: packets are a sequence of inputs.
- Clocks, the blocks' `time_sec` and `time_nsec` stamps, nanosecond statistics and all status-buffer traffic: reporting only.
- `binfo.pchan`, `binfo.nchan`, the PCHAN/NCHAN warnings, `total_missed_pkts`, the running missed count and the float percentages: reporting only.
- The out-of-sequence warning's text and guard (`cur_mcnt != 0`): reporting only.
- The 32-bit width of `out_of_seq_cnt`, `block_packet_counter` and the kernel's indices: taken as unbounded integers.
- Signals and errors while waiting (`pthread_exit` paths): every wait either returns or goes on.
- The hashpipe library and the wrappers in `src/s6_databuf.cpp`: a block's semaphore is one free/filled flag.
- InputRing.InputDatabuf.BusywaitFree: states the effect of the consumer's release as seen on return, because a sequential method has no other thread; `Pipeline` models the wait itself as the guard of a step.
- `missed_pkts` slots beyond the counters: `src/s6_net_thread.cpp:392` loops to `N_BEAM_SLOTS` (8) over an array of `N_BORS` (7) entries; only the real counters are modelled.
- `header.sid` is written when a block is initialised, as in `src/s6_pktsock_thread.cpp`; `src/s6_net_thread.cpp` leaves it alone.
- Arecibo unpacking follows `s6_memcpy`; the plain `memcpy` that `src/s6_pktsock_thread.cpp:614` uses for the same layout differs only for payloads that are not a multiple of 32 bytes.
- EndToEnd.OutputHoldsStream: speaks of the blocks the output thread consumes, because its file is created anew for each block and so keeps only the last one.
- EndToEnd.OutputIsContent: covers streams that settle in the first window or by the start-up resync; after a later resync the packets a recycled block was given before stay under the new stream's, and `EndToEnd.OutputAfterResync` states the data over that recorded base.
- `nchan` from the packet size: an input of the decoders, used only in headers.
- The GPU thread's `header.mcnt >= last_mcount` test, always true because `last_mcount` is never assigned past 0 in this version.
- The GPU thread outside FAST, the commented-out spectroscopy, hit counts and power fields of output blocks: not carried by the FAST copy.
- ConsumerThreads.OutputThread.ProcessBlock: follows the FAST build; does not model observatory information from redis, idle flags, FITS files or a file that cannot be created.
- The fake net thread, fake data generation, the memcpy benchmark, `log_rms`, the logger, voltage dumps, scripts, CUDA and OpenCL shims.
- PfbFir.WorkItem: computes over reals, so rounding is not modelled; `pos` is an input because `src/pfb_fir.cu:278` as it stands multiplies two expressions where a group size is meant.
- The kernel's input bytes are a sequence of integers, and its `samples_to_bytes` helper is the identity in this version.
