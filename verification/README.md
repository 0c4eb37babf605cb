# Verified models of the fx-CG100 port's recompiler and fast paths

The port carries many pairs of a slow, obviously right path and a fast one that must be
indistinguishable from it: a C helper and the SH-4A code emitted in its place, a BIOS loop and the
chunked engine that replays it, an instruction loop and its summary, a byte-wise decoder and a
halfword-buffered one. This project models both sides of each pair in Dafny and proves that they
agree, for every input, or says exactly when they do not.

## What is modelled

**Recompiler.** `Guest` is the meaning the C helpers give to ARM and Thumb data-processing, shift
and multiply opcodes (sections A3.2, A5.1 of ARM DDI 0100). `Sh4` is a small SH-4A machine: the
host registers the generated code uses, T, MACL/MACH, branches and the delay slot. The emitters are
functions from an opcode and a live-flag mask to operation lists (`Alu`, `Shifts`, `ArmDp`, `Thumb`,
`ThumbShift`, `Multiply`, `Cond`), and `Emitters.Emitter` is the code cursor that appends
operations and back-patches placeholders, each method proved to emit exactly those lists. The
correctness statement is relational in the flags: a live flag is exact, a dead flag is either the
old one or the helper's, and the other 28 CPSR bits never change. `Pools` is the byte layer of the
two literal pools, `ConstSynth` that of constant synthesis, with code executed from its own
halfwords. LDM/STM is `Blocks` (the C helper and the transfer over one host page), `Sh4Mem` (the
machine with memory: faulting accesses, byte swaps, loops, the site's call), `BlockCode` and
`BlockRoutine` (the unrolled code and the shared routine, run instruction by instruction) and
`BlockEmit` (the cursor that lays both down and patches their guards).

**BIOS copies.** `GuestBus` and `Chunks` are guest memory with its mirrors resolved to host arrays,
element-wise copy loops, and the host-speed forms. `Swi` is the parked, resumable CpuFastSet and
CpuSet machine: `update_gba` is an environment step that returns any new budget, or ends the frame,
or runs an interrupt, and may write any memory outside the call's operands and stack frames.
`SwiAtomic` has the predictors, the atomic form and the main result; `SwiEngine` the engines as
state-changing methods. `Bulk` is the charged form of the same calls: element loops with wait states
and code tags, and the bulk path that replaces them.

**Loop summaries.** `Udiv` and `UdivTrace` are the Thumb divide loop and its 28-halfword pattern run
by the same helpers as above; `Mixer` and `MixerRun` are the m4a mixer.

**Codecs and storage.** `Decoders` (LZ77 and run-length), `StateRle` (savestates), `Oam` (mirrored
OAM copies), `Nor` (the ROM address index over a fragmented file) and `Storage` (refreshing it).

## Where the code falls short of its intent

- A call the BIOS refuses at once (source or end address in a region whose bits 25..27 are clear) is
  predicted as such, but a budget too small even for that early exit parks it as if it were a real
  copy. A parked fill then writes the destination and moves r1; a parked copy is declined at its loop
  top, from where the BIOS copies. `SwiAtomic.ParkedIff`: parking is right if and only if the call is
  not refused. `SwiAtomic.RefusedExample` and `SwiAtomic.RefusedCopyExample` are concrete calls.
- The engine prices its exit by the caller's stack region, the predictor by the supervisor's.
  `SwiAtomic.ExactWhenStacksAgree`: the cycles are exact if and only if the two regions cost the same.
- The buffered LZ77 decoder reads a byte it has not stored yet on a distance-1 reference at an odd
  output offset, and both buffered decoders store one byte low at an odd destination.
  `Decoders.LzAgree`, `Decoders.LzAlwaysAgree` and `Decoders.RlAgree` give the exact conditions.
- Of the failed block queries the ROM table builder sees only the first one and block 0's own;
  another that leaves a usable address behind is published (`Nor.SecondFailureUnseen` reads a wrong
  byte through it). `Nor.SoundIff` is the exact condition, `Nor.CleanIsSound` one a caller can check.
- The divide loop's final r0 is the remainder only when the last turn takes nothing more off it
  (`Udiv.Leftover`).
- The complement tier of constant synthesis can never be taken (`ConstSynth.NotTierIdle`).
- A pooled load that cannot reach its word is left unpatched without an error by the segmented pool:
  `Pools.SegmentPatched` is what becomes of each load, `Pools.AllReach` a length that suffices,
  `Pools.OnePastMisses` the load that misses just past it.

## Model

| member | source | states |
|---|---|---|
| ArmDp.ArmDpCorrect | ports/fxcg100/sh4/sh4_thumb_dp_emit.h:1277-1421 | for every ARM data-processing opcode the emitter accepts, every host state and live mask, the emitted code leaves the C helper's registers, every live flag exact, each dead flag old or the helper's, all other CPSR bits unchanged |
| ArmDp.DecodeCorrect | ports/fxcg100/sh4/sh4_interp_helpers.c:940-985 | the operand the emitter decodes has exactly the value and shifter carry of the C helper |
| ArmDp.CommitAgrees | ports/fxcg100/sh4/sh4_emit_glue.h:562-569 | writing a rounded-up flag set meets the live-flag contract whenever the unwritten live flags were already right |
| Alu.SetFlagsRun | ports/fxcg100/sh4/sh4_emit_glue.h:573-624 | the rotate-insert sequence replaces exactly the flags of the rounded set and keeps every other CPSR bit |
| Alu.AddSubCorrect | ports/fxcg100/sh4/sh4_thumb_dp_emit.h:58-94 | ADD/SUB/CMP/CMN/NEG/RSB code commits the 33-bit sum with its carry and overflow |
| Alu.CarryCorrect | ports/fxcg100/sh4/sh4_thumb_dp_emit.h:101-145 | ADC/SBC/RSC code commits the sum with the guest's own carry-in, carry-out and overflow |
| Shifts.ShiftOpsRun | ports/fxcg100/sh4/sh4_thumb_dp_emit.h:1106-1133 | every accepted immediate shift of the second operand, the #32 encodings included |
| Shifts.CarryBitRun | ports/fxcg100/sh4/sh4_thumb_dp_emit.h:1161-1197 | the shifter carry of an immediate shift, the #32 encodings included |
| Shifts.ShiftRegExec | ports/fxcg100/sh4/sh4_thumb_dp_emit.h:1202-1268 | the register-amount shift, branches included, for all amounts 0..255 |
| Shifts.ThumbRegExec | ports/fxcg100/sh4/sh4_thumb_dp_emit.h:619-707 | the Thumb register shift and its carry for all amounts 1..255: below 32, 32, above, and rotates by multiples of 32 |
| Thumb.ThumbDpCorrect | ports/fxcg100/sh4/sh4_thumb_dp_emit.h:147-349 | every accepted Thumb ALU opcode agrees with the C helper in the same relational sense, PC writes included |
| ThumbShift.ShiftImmCorrect | ports/fxcg100/sh4/sh4_emit_glue.h:692-739 | every Thumb immediate shift opcode, LSR/ASR #32 included, agrees with the C helper |
| ThumbShift.ShiftRegCorrect | ports/fxcg100/sh4/sh4_thumb_dp_emit.h:598-718 | every Thumb register shift opcode agrees with the C helper, amount 0 included |
| Multiply.MulCorrect | ports/fxcg100/sh4/sh4_arm_mul_emit.h:62-89 | MUL/MLA agree with the C helper |
| Multiply.MulLongCorrect | ports/fxcg100/sh4/sh4_arm_mul_emit.h:91-124 | UMULL/UMLAL/SMULL/SMLAL agree with the C helper's 64-bit arithmetic and 64-bit N and Z |
| Multiply.Add64 | ports/fxcg100/sh4/sh4_arm_mul_emit.h:104-112 | the two-word carry chain is addition modulo 2^64 |
| Cond.CondCorrect | ports/fxcg100/sh4/sh4_emit_glue.h:1123-1179 | each of the sixteen condition tests leaves T equal to the condition over CPSR and the guest untouched |
| Cond.CompareDecides | ports/fxcg100/sh4/sh4_emit_glue.h:1123-1179 | CMP then the condition test sets T to the true unsigned or signed comparison, for all 32-bit operands |
| Emitters.Emitter.SetFlags | ports/fxcg100/sh4/sh4_emit_glue.h:582-624 | emits exactly the flag code proved above |
| Emitters.Emitter.AddSub | ports/fxcg100/sh4/sh4_thumb_dp_emit.h:58-94 | emits exactly the proved addition code |
| Emitters.Emitter.Carry | ports/fxcg100/sh4/sh4_thumb_dp_emit.h:101-145 | emits exactly the proved carry code |
| Emitters.Emitter.ShiftReg | ports/fxcg100/sh4/sh4_thumb_dp_emit.h:1202-1268 | placeholders and back-patches end in exactly the proved branch displacements |
| Emitters.Emitter.ThumbShiftReg | ports/fxcg100/sh4/sh4_thumb_dp_emit.h:598-718 | the same for the Thumb register shift, three patched branches deep |
| Emitters.Emitter.ShiftImm | ports/fxcg100/sh4/sh4_emit_glue.h:692-739 | emits exactly the proved Thumb immediate shift |
| Emitters.Emitter.CondToT | ports/fxcg100/sh4/sh4_emit_glue.h:1123-1179 | what it appends leaves T equal to the condition from every host state |
| Emitters.Emitter.ArmDp | ports/fxcg100/sh4/sh4_thumb_dp_emit.h:1277-1421 | what it appends acts as the C helper from every host state; nothing when the opcode is left to it |
| Emitters.Emitter.ThumbDp | ports/fxcg100/sh4/sh4_thumb_dp_emit.h:154-349 | what it appends acts as the C helper from every host state; nothing when the opcode is left to it |
| Emitters.Emitter.Mul | ports/fxcg100/sh4/sh4_arm_mul_emit.h:62-89 | what it appends acts as the C helper from every host state; nothing when the opcode is left to it |
| Emitters.Emitter.MulLong | ports/fxcg100/sh4/sh4_arm_mul_emit.h:91-124 | what it appends acts as the C helper from every host state; nothing when the opcode is left to it |
| BlockCode.InlineCorrect | ports/fxcg100/sh4/sh4_arm_block_emit.h:50-283 | the unrolled code of every accepted LDM/STM, run on the SH-4A, for all four addressing modes, any base alignment, list, memory and tags: it ends past the slow path with the C helper's registers, memory, cycles, stores and alerts, or stops at the call of the helper with the guest as it was, the latter exactly when a guard fails |
| BlockRoutine.SiteCorrect | ports/fxcg100/sh4/sh4_fastmem.h:1036-1121 | the same for the call site with the shared routine: r0 published and taken back, parameters from the site's literal, guards, tag scan, register-list loop, writeback, charge and return |
| BlockRoutine.RoutineRuns | ports/fxcg100/sh4/sh4_fastmem.h:1145-1419 | the shared routine from its first instruction, back at its caller or on the slow path with nothing changed |
| BlockRoutine.Looped | ports/fxcg100/sh4/sh4_fastmem.h:1296-1337 | the emitted loop that shifts the list out of one register and moves two offsets is the transfer, no access faulting |
| BlockRoutine.Scanned | ports/fxcg100/sh4/sh4_fastmem.h:1274-1293 | the counted tag loop goes on exactly when no byte under the words is tagged |
| BlockCode.Moved | ports/fxcg100/sh4/sh4_arm_block_emit.h:243-262 | the unrolled transfer is the same transfer |
| BlockCode.Scanned | ports/fxcg100/sh4/sh4_arm_block_emit.h:228-241 | the unrolled tag scan reads every tag word before any store and restores the offset |
| BlockCode.Finished | ports/fxcg100/sh4/sh4_arm_block_emit.h:263-277 | writeback, the run charge from the live table and the branch past the slow path |
| BlockCode.PassesIff | ports/fxcg100/sh4/sh4_arm_block_emit.h:117-241 | the guards in emitted order are exactly the conditions of the fast path |
| Sh4Mem.StopsOnce | ports/fxcg100/sh4/sh4_arm_block_emit.h:50-283 | execution is deterministic, so where it stops is unique |
| BlockEmit.Cursor.InlineForm | ports/fxcg100/sh4/sh4_arm_block_emit.h:50-283 | the register loops, guard placeholders and their patches lay down exactly the inline code run above |
| BlockEmit.Cursor.SharedForm | ports/fxcg100/sh4/sh4_fastmem.h:1145-1419 | and exactly the shared routine's |
| BlockEmit.PatchedIsLinked | ports/fxcg100/sh4/sh4_arm_block_emit.h:275-276 | patching every guard to the cursor links each to the slow path, whatever lies between |
| Blocks.FastCorrect | ports/fxcg100/sh4/sh4_fastmem.h:1145-1419 | once every guard holds, the transfer over one page, its writeback and its charge are the C helper's effect |
| Blocks.LoopsAgree | ports/fxcg100/sh4/sh4_interp_helpers.c:1147-1167 | the helper's ascending register loop is the shifted-list transfer over one page, plus one word charge per register |
| Blocks.StartIs | ports/fxcg100/sh4/sh4_arm_block_emit.h:79-113 | both ways of computing the first address and the written-back base agree for any base |
| Sh4Mem.RawReversed | ports/fxcg100/sh4/sh4_arm_block_emit.h:248-262 | the three byte and word swaps turn a guest word into its little-endian bytes |
| Sh4Mem.ReversedRaw | ports/fxcg100/sh4/sh4_arm_block_emit.h:248-262 | and back |
| Pools.DeferredSound | ports/fxcg100/sh4/sh4_emit_core.h:147-188 | after a flush without error every recorded load gets its own constant in a word-aligned block, and only displacement bytes before the pool change |
| Pools.ErrorIff | ports/fxcg100/sh4/sh4_emit_core.h:176-180 | the error flag is raised if and only if some load cannot reach its word |
| Pools.SegmentSound | ports/fxcg100/sh4/sh4_emit_glue.h:205-267 | the skip branch lands just past the pool, only displacements before it change, every load that reaches its word gets its own constant, and within 924 bytes of the first load all of them do |
| Pools.SegmentPatched | ports/fxcg100/sh4/sh4_emit_glue.h:240-252 | every load of every segment is pointed at its word if that is in reach, and otherwise left exactly as it was emitted |
| Pools.AllReach | ports/fxcg100/sh4/sh4_emit_glue.h:171-185 | 924 bytes and 48 loads keep every displacement in range |
| Pools.OnePastMisses | ports/fxcg100/sh4/sh4_emit_glue.h:171-185 | one halfword more does not: 48 different constants in 926 bytes leave the last load unpatched, loading two NOPs |
| Pools.ServeFrom | ports/fxcg100/sh4/sh4_emit_core.h:156-186 | deduplication keeps every reference served by the word of its first equal value |
| Pools.Pool.Words | ports/fxcg100/sh4/sh4_emit_core.h:156-186 | the nested emit-and-patch loops compute exactly that pool and report exactly the misses |
| Pools.Pool.Flush | ports/fxcg100/sh4/sh4_emit_core.h:147-189 | flushes the deferred pool and keeps the error sticky |
| Pools.Pool.FlushSegment | ports/fxcg100/sh4/sh4_emit_glue.h:205-267 | flushes a segment with its patched skip branch |
| Pools.Pool.Add | ports/fxcg100/sh4/sh4_emit_glue.h:295-307 | a 49th load closes the segment first |
| Pools.Pool.MaybeFlush | ports/fxcg100/sh4/sh4_emit_glue.h:275-281 | after an instruction boundary an open segment is shorter than 704 bytes |
| ConstSynth.ConstCorrect | ports/fxcg100/sh4/sh4_emit_glue.h:317-401 | for every 32-bit constant, register, address parity and surrounding code, the emitted halfwords load exactly the constant, leave T and every other register alone, and fall out at their end |
| ConstSynth.ShiftBack | ports/fxcg100/sh4/sh4_emit_glue.h:348-375 | a fitting constant is its signed byte shifted back up |
| ConstSynth.NotTierIdle | ports/fxcg100/sh4/sh4_emit_glue.h:338-343 | the complement tier is never reached: a value fits the immediate exactly when its complement does |
| ConstSynth.Constants.Load | ports/fxcg100/sh4/sh4_emit_glue.h:317-401 | the tiers, the candidate search and the shift loops emit exactly that code |
| SwiAtomic.Sliced | ports/fxcg100/sh4/sh4_interp_helpers.c:2532-2678 | however a parked CpuFastSet or CpuSet copy or fill is sliced by budgets, frames and interrupts, it is never declined half-way, ends with the uncut loop's registers, CPSR and memory (plus dead stack words and the environment's own writes), debits exactly the predicted cycles, and ends once it got one positive budget per round |
| SwiAtomic.ExactWhenStacksAgree | ports/fxcg100/sh4/sh4_interp_helpers.c:2567-2581 | the debits equal the prediction if and only if the two stack regions cost the same per word |
| SwiAtomic.ParkedIff | ports/fxcg100/sh4/sh4_interp_helpers.c:3478-3497 | for every parked call of all four kinds: once every round got its budget it is over with r0 and r1 as predicted if and only if the BIOS does not refuse it |
| SwiAtomic.RefusedCopy | ports/fxcg100/sh4/sh4_interp_helpers.c:3484-3497 | a refused copy, whatever budgets and events come, never gets past its loop top, its registers still describing the whole copy |
| SwiAtomic.RefusedExample | ports/fxcg100/sh4/sh4_interp_helpers.c:3484-3497 | a refused fill with 100 cycles left overwrites the start of EWRAM and moves r1 |
| SwiAtomic.RefusedCopyExample | ports/fxcg100/sh4/sh4_interp_helpers.c:3484-3497 | a refused copy with 100 cycles left is parked and then declined at the copy loop with all eight words to go |
| SwiAtomic.RefusedPrediction | ports/fxcg100/sh4/sh4_interp_helpers.c:2390-2397 | the prediction for those calls: 46 cycles and both registers unchanged |
| SwiAtomic.EarlyUnresolved | ports/fxcg100/sh4/sh4_interp_helpers.c:2047-2055 | no address at a refused call's source is mapped, whether the source or the end was refused |
| SwiAtomic.AtomicIsReference | ports/fxcg100/sh4/sh4_interp_helpers.c:2912-2968 | whenever the atomic form accepts, registers and memory are those of the element-by-element loop |
| SwiAtomic.PredictedCycles | ports/fxcg100/sh4/sh4_interp_helpers.c:2254-2440 | prologue, rounds and exit debits add up to the prediction, the two loops that fall through refunded |
| SwiAtomic.LastCopied | ports/fxcg100/sh4/sh4_interp_helpers.c:2958-2959 | the last destination element is the source element loaded last, overlapping copies included |
| SwiAtomic.DisjointUnfed | ports/fxcg100/sh4/sh4_interp_helpers.c:2088-2097 | the predictor's 32-bit overlap test rules out feedback when both operands lie in canonical images |
| Swi.MaterializeIsAt | ports/fxcg100/sh4/sh4_interp_helpers.c:2477-2528 | dispatcher and prologue pushes build the loop-top state before the first round |
| Swi.StepAt | ports/fxcg100/sh4/sh4_interp_helpers.c:2609-2665 | k rounds at host speed take the loop-top state after n to that after n + k |
| Swi.PatchAt | ports/fxcg100/sh4/sh4_interp_helpers.c:2595-2608 | memory written elsewhere by the environment leaves the state a loop-top state |
| Swi.EnterAt | ports/fxcg100/sh4/sh4_interp_helpers.c:2532-2561 | re-entry recomputes every local from the registers alone, whatever was parked |
| Swi.FinishAt | ports/fxcg100/sh4/sh4_interp_helpers.c:2564-2593 | the pops read back the pushed words although memory was copied over and written meanwhile |
| Swi.LoopFrom | ports/fxcg100/sh4/sh4_interp_helpers.c:2563-2668 | one engine call: parked or done with the cycles of exactly the rounds made, and progress |
| Swi.WholeFrom | ports/fxcg100/sh4/sh4_interp_helpers.c:3672-3699 | all engine calls of one SWI, re-entered at the loop top |
| SwiEngine.Gba.Begin | ports/fxcg100/sh4/sh4_interp_helpers.c:2697-2741 | the materializers, store by store |
| SwiEngine.Gba.Run | ports/fxcg100/sh4/sh4_interp_helpers.c:2563-2668 | the engines' while loop, with update_gba as a given sequence of outcomes |
| SwiEngine.Gba.Engine | ports/fxcg100/sh4/sh4_interp_helpers.c:2745-2785 | the engine entry: declines unless registers describe a loop top |
| SwiEngine.Gba.RunChunk | ports/fxcg100/sh4/sh4_interp_helpers.c:2612-2664 | one chunk of any of the four loops |
| SwiEngine.Gba.Copy | ports/fxcg100/sh4/sh4_interp_helpers.c:2635-2660 | a copy chunk by memmove, forward loop or single stores |
| SwiEngine.Gba.Fill | ports/fxcg100/sh4/sh4_interp_helpers.c:2618-2632 | a fill chunk at host speed or by single stores |
| SwiEngine.Gba.Leave | ports/fxcg100/sh4/sh4_interp_helpers.c:2564-2593 | the shared epilogue |
| Chunks.ChunkIsCopy | ports/fxcg100/sh4/sh4_interp_helpers.c:2633-2660 | every chunk the engine completes is that many steps of the BIOS loop, given the forward form or no feedback |
| Chunks.CopyPatch | ports/fxcg100/sh4/sh4_interp_helpers.c:2609-2665 | the copy loop commutes with writes outside its operands |
| Chunks.MoveLosesPattern | ports/fxcg100/sh4/sh4_interp_helpers.c:2641-2646 | memmove on an overlapping chunk loses the pattern the BIOS loop expands |
| GuestBus.MoveIsForward | ports/fxcg100/sh4/sh4_swi_overlap.h:11-36 | memmove equals the element loop unless the destination starts inside the source |
| GuestBus.ForwardIsCopy | ports/fxcg100/sh4/sh4_swi_overlap.h:11-36 | the element loop on host memory is the guest loop whenever both ranges resolve |
| GuestBus.ForwardPeriodic | ports/fxcg100/sh4/sh4_swi_overlap.h:11-36 | an overlapping forward copy is the periodic extension of the first delta source bytes |
| GuestBus.LastElement | ports/fxcg100/sh4/sh4_interp_helpers.c:3505-3515 | its last element is source element (n - 1) mod (delta / width) |
| GuestBus.CopySplit | ports/fxcg100/sh4/sh4_swi_overlap.h:11-36 | any chunking of the element loop gives the same memory |
| GuestBus.CopyForwardInPlace | ports/fxcg100/sh4/sh4_swi_overlap.h:15-36 | the typed in-place loop is that function |
| GuestBus.RamSub | ports/fxcg100/sh4/sh4_interp_helpers.c:2023-2045 | every sub-range of a resolved range resolves linearly |
| UdivTrace.TraceIsSummary | ports/fxcg100/sh4/sh4_thumb_udiv.h:21-28 | for every register file and CPSR, the 28-halfword pattern run instruction by instruction leaves exactly the summary's registers, NZCV, fetch and refill counts, nothing else changed |
| Udiv.Divides | ports/fxcg100/sh4/sh4_thumb_udiv.h:56-143 | from an aligned entry r2 grows by the quotient r0 / d, for any power-of-two weight |
| Udiv.Bounded | ports/fxcg100/sh4/sh4_thumb_udiv.h:130-141 | at most eight rounds, 224 fetches and 56 refills from any state, so the cycle product cannot overflow |
| Udiv.Leftover | ports/fxcg100/sh4/sh4_thumb_udiv.h:56-143 | from an aligned entry r0 ends as the remainder less those halves, quarters and eighths of the divisor the last turn still subtracts, and is the remainder exactly when none of them fits |
| Udiv.NotTheRemainder | ports/fxcg100/sh4/sh4_thumb_udiv.h:56-143 | so 1 / 3 leaves 0 |
| Udiv.Run | ports/fxcg100/sh4/sh4_thumb_udiv.h:52-143 | the for loop computes exactly the summary |
| Mixer.WholeIsBatches | ports/fxcg100/sh4/sh4_interp_helpers.c:1566-1663 | whenever the whole call accepts, the first batch is safe and memory, r1/r2/r4/r8/r12, cycles and batch count are those of the batch loop under the fold rule capped at eight, however buffers and samples alias |
| Mixer.WholeClear | ports/fxcg100/sh4/sh4_interp_helpers.c:1585-1630 | the up-front guards imply every per-sample check without wrap-around |
| Mixer.StreamIsSteps | ports/fxcg100/sh4/sh4_interp_helpers.c:1636-1654 | the streaming loop makes exactly the samples in load-left, store-left, load-right, store-right order |
| Mixer.PlanFollowed | ports/fxcg100/sh4/sh4_arm_mixer.h:145-165 | the planned prefix is the prefix the batch loop would run, stop by stop |
| MixerRun.Call.TryLoop | ports/fxcg100/sh4/sh4_interp_helpers.c:1665-1760 | taken exactly in ARM state with a positive budget and a safe first batch, whichever way it is then run; otherwise nothing changes |
| MixerRun.Call.RunWhole | ports/fxcg100/sh4/sh4_interp_helpers.c:1566-1663 | all or nothing |
| MixerRun.Call.Prepare | ports/fxcg100/sh4/sh4_interp_helpers.c:1461-1499 | accepts exactly the safe batches and prices them |
| MixerRun.Call.Batch | ports/fxcg100/sh4/sh4_interp_helpers.c:1501-1526 | four samples |
| MixerRun.Call.PlanConstant | ports/fxcg100/sh4/sh4_arm_mixer.h:145-165 | the planning loop |
| MixerRun.Call.TagsClear | ports/fxcg100/sh4/sh4_interp_helpers.c:1531-1557 | the peeled and unrolled scan sees every tag byte of the range |
| Decoders.LzAgree | ports/fxcg100/sh4/sh4_interp_helpers.c:3108-3188 | even output: at an even destination the two decoders leave the same memory if and only if each odd distance-1 reference finds its byte already there; at an odd one, where halfword stores are rounded down, if and only if the buffered decoder stores nothing but the byte below the destination, which its last byte holds already |
| Decoders.LzAlwaysAgree | ports/fxcg100/sh4/sh4_interp_helpers.c:3108-3188 | they agree over every old content of the destination if and only if the stream is empty, or the destination is even and no distance-1 reference stands at an odd offset |
| Decoders.RlAgree | ports/fxcg100/sh4/sh4_interp_helpers.c:3190-3251 | the run-length pair agrees on even output if and only if the destination is even, or all it writes is one byte that both its neighbours hold already |
| Decoders.OddShifts | ports/fxcg100/sh4/sh4_interp_helpers.c:430-433 | at an odd destination a literal pair lands one byte low |
| Decoders.OddLosesLast | ports/fxcg100/sh4/sh4_interp_helpers.c:3146-3188 | an odd output loses its last byte in the buffered form |
| Decoders.Wram.Lz77 | ports/fxcg100/sh4/sh4_interp_helpers.c:3108-3144 | the nested loops decode exactly the stream's operations, byte by byte in place |
| Decoders.Vram.Lz77 | ports/fxcg100/sh4/sh4_interp_helpers.c:3146-3188 | the same with the two-byte buffer and halfword stores at even addresses |
| Decoders.Wram.RunLength | ports/fxcg100/sh4/sh4_interp_helpers.c:3190-3216 | run-length, byte by byte |
| Decoders.Vram.RunLength | ports/fxcg100/sh4/sh4_interp_helpers.c:3218-3251 | run-length, buffered, halfword stores at even addresses |
| StateRle.RoundTrip | ports/fxcg100/gint-gpsp/src/gpsp_runner.c:992-1061 | every non-empty image compresses within raw + 12 bytes and decompresses to itself with any tail of slack words |
| StateRle.BoundIsTight | ports/fxcg100/gint-gpsp/src/gpsp_runner.c:992-1033 | the bound is met by one word, and the empty image is refused at it |
| StateRle.ExpandTokens | ports/fxcg100/gint-gpsp/src/gpsp_runner.c:1042-1060 | the reader gets the words back whatever follows |
| StateRle.TokensShort | ports/fxcg100/gint-gpsp/src/gpsp_runner.c:1004-1031 | each literal header but a last one is paid for by the run after it |
| StateRle.Compress | ports/fxcg100/gint-gpsp/src/gpsp_runner.c:992-1033 | writes exactly the stream and fails exactly when it does not fit |
| StateRle.Decompress | ports/fxcg100/gint-gpsp/src/gpsp_runner.c:1035-1061 | succeeds exactly on streams that expand to the size, and writes nothing past it |
| Nor.SoundIff | ports/fxcg100/gint-gpsp/src/nor_rom.c:633-676 | with a file system whose successful answers are true, the published table is right if and only if no block other than block 0 and the first failed one failed and yet left a usable address of something else |
| Nor.CleanIsSound | ports/fxcg100/gint-gpsp/src/nor_rom.c:180-193 | in particular when failed queries leave no address |
| Nor.BlockByte | ports/fxcg100/gint-gpsp/src/nor_rom.c:620-702 | a byte through a 4 KiB entry, mirrored entries included, is the file's byte and inside the file |
| Nor.PageByte | ports/fxcg100/gint-gpsp/src/nor_rom.c:704-724 | a byte through a direct 32 KiB page is the file's byte and inside the file |
| Nor.SyntheticBase | ports/fxcg100/sh4/sh4_fastmem.h:901-911 | the synthetic base indexed by 15 address bits is the block indexed by 12, modulo 2^32 |
| Nor.SecondFailureUnseen | ports/fxcg100/gint-gpsp/src/nor_rom.c:180-193 | otherwise a second failed query's leftover address is published and the gather read returns a wrong byte |
| Nor.ReadIsFile | ports/fxcg100/gint-gpsp/src/nor_rom.c:556-612 | under that condition the gather read is the file's bytes and 0xFF past its end |
| Nor.Index.Build | ports/fxcg100/gint-gpsp/src/nor_rom.c:620-726 | the table, the page classification and the page-0 shadow, for every fragmentation |
| Nor.Index.Read | ports/fxcg100/gint-gpsp/src/nor_rom.c:556-612 | the piecewise loop reads each byte through its block's entry, else from the file, else as 0xFF, for every table |
| Bulk.Hle.CallCpuSet | ports/fxcg100/sh4/sh4_interp_helpers.c:3041-3075 | with its bulk form, CpuSet leaves the memory, the cycle charge and the code-overwrite alert of the element loop, for every source, destination and control word |
| Bulk.Hle.CallCpuFastSet | ports/fxcg100/sh4/sh4_interp_helpers.c:3077-3106 | the same for CpuFastSet and its loops of eight |
| Bulk.Hle.BulkSet | ports/fxcg100/sh4/sh4_interp_helpers.c:2102-2164 | takes exactly the aligned, mapped, apart operands, and then is the whole element loop |
| Bulk.Hle.TagsHit | ports/fxcg100/sh4/sh4_interp_helpers.c:2058-2075 | the peeled word scan finds a nonzero tag if and only if a byte has one |
| Bulk.BulkCopyIsLoop | ports/fxcg100/sh4/sh4_interp_helpers.c:2133-2162 | one memmove and two products are n charged, tag-checked, mirrored loads and stores |
| Bulk.FillIs | ports/fxcg100/sh4/sh4_interp_helpers.c:2142-2162 | n charged stores of one value are the repeated pattern, one product and one tag scan |
| Bulk.CopyRounded | ports/fxcg100/sh4/sh4_interp_helpers.c:3096-3105 | the loops of eight copy the count rounded up to eight |
| Bulk.FillRounded | ports/fxcg100/sh4/sh4_interp_helpers.c:3087-3094 | and fill it |
| Oam.ChunksAreStores | ports/fxcg100/sh4/sh4_swi_oam.h:59-70 | the chunked copy is the sequence of halfword stores, however often the 1 KiB mirror wraps |
| Oam.TakenIsStores | ports/fxcg100/sh4/sh4_swi_oam.h:41-72 | a taken call's chunks, read and written in one host memory, are the halfword loads and stores made one by one, and leave its source alone |
| Oam.ApartFrozen | ports/fxcg100/sh4/sh4_swi_oam.h:47-56 | because a source apart from the array is read as it was before the first store |
| Oam.OverlapDiffers | ports/fxcg100/sh4/sh4_swi_oam.h:47-56 | and without that test two overlapping halfwords already come out differently |
| Oam.CopyToOam | ports/fxcg100/sh4/sh4_swi_oam.h:28-72 | on the memory that holds both array and source, makes the element loop's stores exactly when taken, else changes nothing |
| Storage.FramesFresh | ports/fxcg100/gint-gpsp/src/main.c:2205-2336 | in every run of the play loop a guest frame only runs on pointers resolved after the latest storage mutation |
| Storage.FailedBlocks | ports/fxcg100/gint-gpsp/src/gpsp_runner.c:1290-1291 | after a failed mapping no run whose refreshes all fail, whatever it saves or writes, reaches a guest frame |
| Storage.Runner.RefreshRom | ports/fxcg100/gint-gpsp/src/gpsp_runner.c:900-956 | success means the pointers in use were resolved after the latest mutation, failure that the guest stays blocked |
| Storage.Runner.StorageSync | ports/fxcg100/gint-gpsp/src/gpsp_runner.c:958-964 | the same, also when nothing had to be refreshed |
| Storage.Runner.StateSave | ports/fxcg100/gint-gpsp/src/gpsp_runner.c:1110-1155 | the same after a save, however many mutations it made and whether or not it wrote its file |

## Left out

- Cycle charging by emitted data-processing code, the idle and fetch debits, and PC-destination trampolines: only the PC value and the register effects of a Thumb PC write are modelled.
- Opcodes the emitters send to C (RRX, logical shifts by register with flags, S-bit or r15 block transfers, MRS/MSR, swaps, single loads and stores, Thumb block transfers): both sides would be the same helper.
- `Sh4` names the instructions and their effect; their 16-bit encodings are modelled only for the constants, loads and branches of `Pools` and `ConstSynth`. A constant in data-processing code is one operation there, justified by `ConstSynth.ConstCorrect`.
- Only host registers the modelled code touches are in the machine; guest r0 and CPSR are the pinned host registers, the rest the register file.
- BlockCode.InlineCorrect: guest reads and writes outside mapped pages are an abstract bus and a store log; host RAM arrays and VRAM pages are word-aligned, and the page table, literals and wait-state bytes lie outside them (`BlockCode.SampleLaid` is one such layout); branch distances count operations, so that the short ones fit eight bits is not shown.
- BlockRoutine.SiteCorrect: the literal tuple is one readable word behind the return address, and the jump to the slow trampoline is the stop at the helper's call; Thumb sites of the same routine are not modelled.
- SwiAtomic.Sliced: the predictor's 32-bit sum is unbounded here; a declined call continues in the interpreted BIOS, which is not part of this model; FIQ-mode banking of r8..r12, the side accumulator of access cycles and translation-cache flushes are left out; stores that reach no RAM array are a log and are assumed not to change source memory.
- SwiAtomic.Sliced: host memory writes by the environment to the operands or the saved stack words are excluded, as is a change of the gamepak page map during a call.
- The uncharged prediction of CpuSet fills, which no engine resumes.
- Bulk.Hle.CallCpuSet: the halfword an odd address reads is an abstract function of memory, stores that reach no RAM array are a log without side effects or alerts of their own, and the wait-state table is a parameter.
- UdivTrace.TraceIsSummary: the budget gate that declines the summary is a comparison and is not restated.
- Mixer.WholeIsBatches: the mixer's instruction pattern match is a table comparison; its batch loop, not the 36 ARM instructions, is the reference.
- Decoders.LzAgree: source and destination are disjoint, a byte store of the byte-wise forms stores one byte (as in work RAM), and the header word is a parameter, so the unaligned header reads of the run-length pair are not compared.
- StateRle.RoundTrip: whole words; a raw size that is not a multiple of four keeps its header value but not its last bytes, as in the code.
- Nor.Index.Build: pointer durability is an abstract predicate, cache invalidation and diagnostics are left out, and the single-page fallback, which bypasses the block table, is not modelled.
- Storage.FramesFresh: the mutation counter does not wrap around; display, pacing and menu contents are left out.
- The trampolines, the scheduler, the memory dispatcher and mode re-banking are abstract or environment steps.
