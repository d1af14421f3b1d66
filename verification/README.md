# GEMU core models

Dafny models of the parts of GEMU (an emulator of many machines) that are small machines of their own,
each with a fast, lazy or incremental implementation beside a simple meaning, and proofs that the two agree.
`dafny verify dfyconfig.toml` checks everything.

| files | what they model |
|---|---|
| `Chip8`, `Chip8Meaning`, `TbCache`, `Translate` | the CHIP-8 core, its instruction set byte by byte in plain numbers, the hash table of translated blocks, and running from it |
| `Octo`, `OctoAssembler`, `OctoSimulation`, `OctoEvents`, `OctoOnCache`, `OctoLoop` | the one-pass Octo assembler with its backpatching, the meaning of Octo programs, and the proof that the assembled bytes have it: under keys and timers, run from the block cache, and both in the whole run loop |
| `Apu`, `ApuMeaning`, `ApuRegisters`, `ApuLazy`, `ApuMachine`, `ApuLate`, `ApuLateRun`, `ApuFrame` | the integer state of the NES 2A03 sound unit cycle by cycle, its counters in closed form, what its registers mean, its event predictor, the NES machine that skips ahead and catches up, what a late delivery changes, and the frame counter |
| `VncUpdate`, `VncPixel`, `VncCount`, `VncSession`, `VncStream` | one incremental VNC update with the client that applies it, its pixels on the wire, one with too many rectangles, a session of publisher, reader and writer, and its updates as a stream |
| `DriveOptions`, `DriveTable`, `DriveRequests`, `DriveSnapshot` | the in-place `-drive` option splitter and its printer, the drive table, every request written as options and read back, and images with `snapshot=on` |
| `BlockTray` | trays, media and block nodes of the monitor |
| `MonitorQueue`, `QmpFraming` | the monitor's command queue with timed waiters and captured output, and the QMP byte stream |
| `Sha256`, `Sha256Vectors`, `Screendump` | streaming SHA-256 against FIPS 180-4, with the published digest of "abc"; the PNG writer against a decoder |
| `RepIo`, `RepIoMeaning`, `SparseMemory` | interrupted REP INS and OUTS of the Itanium's IA-32 mode, and which byte goes where; the open-addressed page table of the IA-64 self-test |
| `Runs`, `Arithmetic`, `ByteBits` | iteration of partial steps, and facts several models share |

Each component that changes its state step by step is a class (or methods over arrays) proved equal to a
function on values; what the component promises is then proved about that function, for all inputs, states
or runs. The `Meaning` modules say what the functions at the bottom compute without using them: in whole numbers
and bits, by closed forms, or by published values.

## Where the code falls short

Where a property fails, the model keeps the code and proves exactly when the property holds; most entries name a
concrete input as well.

* The NES machine delivers a DMC byte to a sound unit it has not brought up to date. Whatever the CPU does
  afterwards, as long as later deliveries are in time, it sees the same as from a unit that is up to date if and
  only if the output unit had not looked for the byte in between (`ApuLate.DeliverySeenExactly`). A run from
  reset, with a delivery two cycles after its request, shows a difference (`ApuLateRun.LateRunDiffers`).
  `ApuMachine.LazyIsEager` therefore asks for deliveries in time.
* Before $4010 is first written the DMC period is 0 and the predictor is early, though never late, unless
  exactly one bit is left (`ApuLazy.UnsetRateIsEarly`); `ApuLateRun.UnsetRunIsEarly` gets there from reset.
* A translated block that stores into its own later bytes executes the old ones
  (`Translate.SelfModifyingBlockDiffers`). It goes through the states of single stepping if and only if each old
  instruction so executed acts like the new one in the state it is reached in (`Translate.BlockTraceExactly`).
  Blocks of a compiled Octo program within a run of its source never change themselves
  (`OctoOnCache.SourceStoresNoCode`).
* `if..then` skips exactly the next statement if and only if that is one instruction long
  (`OctoSimulation.ThenSkipsOneStatement`).
* A VNC update leaves the client stale if and only if it needs more than 65535 rectangles
  (`VncUpdate.CountMustFit`), as one of 8192 by 4112 pixels can (`VncCount.CountOverflows`). All rectangles are
  sent nevertheless, so from then on the viewer takes rectangles for messages: it can read the updates of a
  session if and only if none of them had too many (`VncStream.SessionRead`). No frame of up to 65535 pairs of
  tiles gets there (`VncSession.SmallSessionExact`).
* A legacy drive option such as `-hda` keeps a file name if and only if it is shorter than 512 characters; a
  longer one is cut without an error (`DriveTable.FileUnchanged`, `DriveTable.LongNameIsCut`).
* A refused medium change whose device drops its medium (which the device of core/src/drive.c does) leaves the
  old block node attached; every other operation keeps the tables sound (`BlockTray.StepExactly`). From a
  fresh monitor this is reached (`BlockTray.StrandingReached`), and a later insert then leaves that node busy
  with no drive behind it (`BlockTray.StrandedNodeStaysBusy`).
* REP INS loses a port value when the store faults although the probe read of the destination did not. With
  enough values waiting in the port, executing and restarting ends as without faults if and only if no attempt
  stopped that way (`RepIo.Cpu.ExecuteRestarting`); `RepIo.StoreFaultLosesByte` is one that did.

## Model

| member | source | states |
|---|---|---|
| `Chip8.Chip8State.ExecInsn` | cpu/chip8/chip8_cpu.c:99-297 | one instruction, executed in place, leaves exactly the state the instruction specification gives |
| `Chip8.Chip8State.ExecSingle` | cpu/chip8/chip8_cpu.c:311-321 | single-stepping is fetch, decode, execute; nothing happens when PC+1 is past memory |
| `Chip8.Chip8State.Draw` | cpu/chip8/chip8_cpu.c:239-259 | the in-place sprite loops flip exactly the pixels a wrapped sprite covers, and VF says whether a lit one was hit |
| `Chip8.DrawnNextColumn` | cpu/chip8/chip8_cpu.c:247-253 | one pixel of the loops, from any point of the drawing: only that pixel flips, if the sprite has it, and a collision is noted exactly then |
| `Chip8.DrawnNextRow` | cpu/chip8/chip8_cpu.c:244-247 | the end of a sprite row is the beginning of the next |
| `Chip8.DrawnAll` | cpu/chip8/chip8_cpu.c:239-259 | before the first pixel nothing is drawn, and after the last row the drawing is the pointwise sprite, the collision flag its overlap with lit pixels |
| `Chip8.Chip8State.SaveRegs` | cpu/chip8/chip8_cpu.c:227-231 | Fx55 stores V0 to Vx at I with 12-bit wrap-around, nothing else changes |
| `Chip8.Chip8State.RestoreRegs` | cpu/chip8/chip8_cpu.c:232-236 | Fx65 loads V0 to Vx from I with 12-bit wrap-around |
| `Chip8.AluArithmetic` | cpu/chip8/chip8_cpu.c:169-204 | add, subtract and shift lose nothing: the old values follow from the result and VF as exact arithmetic, VF is written last, and no other register changes |
| `Chip8Meaning.DrawInsn` | cpu/chip8/chip8_cpu.c:239-259 | Dxyn by its two bytes: of the n by 8 places exactly those flip whose sprite byte has bit 7 - c set, wrapping at both edges; no other pixel flips; VF is 1 if and only if a flipped pixel was lit |
| `Chip8Meaning.ClearInsn` | cpu/chip8/chip8_cpu.c:105-109 | 00E0 puts every pixel out |
| `Chip8Meaning.RegisterInsn` | cpu/chip8/chip8_cpu.c:153-204 | 8xyN, for every N: copy, the three bitwise operations bit by bit, sum, both differences and shifts with their flag; every other N does nothing |
| `Chip8Meaning.ByteInsn` | cpu/chip8/chip8_cpu.c:145-152 | 6xkk loads, 7xkk adds without a flag, modulo 256 |
| `Chip8Meaning.RandomInsn` | cpu/chip8/chip8_cpu.c:276-283 | Cxkk advances the generator once and leaves its low byte, masked bit by bit |
| `Chip8Meaning.RandomNumbers` | cpu/chip8/chip8_cpu.c:276-283 | the generator is xorshift32, bit by bit, with its known sequence from 1 |
| `Chip8Meaning.JumpInsn` | cpu/chip8/chip8_cpu.c:110-123 | where PC and stack go for 1nnn, 2nnn, Bnnn and 00EE, and when call and return have no room |
| `Chip8Meaning.SkipInsn` | cpu/chip8/chip8_cpu.c:125-142 | the six conditional skips, by their two bytes |
| `Chip8Meaning.IndexInsn` | cpu/chip8/chip8_cpu.c:207-218 | Annn, Fx1E modulo 4096, Fx29 to a digit of the font at 0x50, and the three timer instructions |
| `Chip8Meaning.KeyInsn` | cpu/chip8/chip8_cpu.c:284-290 | Fx0A waits where it is |
| `Chip8Meaning.DigitsInsn` | cpu/chip8/chip8_cpu.c:219-226 | Fx33 stores three decimal digits that make up the value, the highest first |
| `Chip8Meaning.SaveInsn` | cpu/chip8/chip8_cpu.c:227-231 | Fx55 by its two bytes: each register at its place, all other bytes as before |
| `Chip8Meaning.RestoreInsn` | cpu/chip8/chip8_cpu.c:232-236 | Fx65 by its two bytes |
| `Chip8Meaning.UnknownInsn` | cpu/chip8/chip8_cpu.c:291-295 | every byte pair that is none of these is passed over |
| `Chip8Meaning.NoFetch` | cpu/chip8/chip8_cpu.c:311-315 | past the end of memory there is no step |
| `TbCache.Cache.Lookup` | core/src/tcg.c:32-39 | returns the latest block inserted for the PC since the last flush, or none |
| `TbCache.Cache.Insert` | core/src/tcg.c:41-59 | adds one block at the head of its chain; both counters keep counting the insertions |
| `TbCache.Cache.Flush` | core/src/tcg.c:16-30 | leaves no block and zero counters |
| `TbCache.BucketFindsLatest` | core/src/tcg.c:32-39 | walking the one chain a PC hashes to finds the latest insertion among all of them |
| `Translate.DecodeBlock` | cpu/chip8/chip8_cpu.c:76-95 | the decode loop yields the block that starts at PC: up to the first terminal instruction, the size limit or the end of memory |
| `Translate.TranslateBlock` | cpu/chip8/chip8_cpu.c:76-95 | a translated block is in the cache and is what memory decodes to |
| `Translate.BlockIsDecoded` | cpu/chip8/chip8_cpu.c:76-95 | every instruction of a block is the decoding of its own two bytes, and only the last can be terminal |
| `Translate.BlockLimit` | cpu/chip8/chip8_cpu.c:76-95 | 64 instructions of which none ends a block make a block of 64 |
| `Translate.ExecuteTb` | cpu/chip8/chip8_cpu.c:299-309 | executing a block stops early only for an awaited key |
| `Translate.BlockIsSteps` | cpu/chip8/chip8_cpu.c:299-321 | a block that leaves its own later bytes alone does what stepping its instructions from memory does |
| `Translate.BlockTraceExactly` | cpu/chip8/chip8_cpu.c:299-321 | block and single stepping go through the same states if and only if, wherever the block gets to bytes a store has changed, its old instruction acts like the new one there |
| `Translate.SelfModifyingBlockDiffers` | cpu/chip8/chip8_cpu.c:227-231 | at one concrete machine, a block that stores into its own later bytes and single stepping end differently |
| `Translate.BlockDependsOnItsBytes` | cpu/chip8/chip8_cpu.c:76-95 | a block is determined by the bytes it covers |
| `Translate.CachedRunIsSteps` | cpu/chip8/chip8_cpu.c:299-321 | any number of turns of the cached run loop is fetch-decode-execute, as long as no store hits a cached block |
| `Translate.RunOneBlock` | cpu/chip8/chip8_cpu.c:299-309 | one look-up, translation on a miss, and execution, in place |
| `OctoAssembler.Assembler.PatchJp` | cpu/chip8/octo.c:161-166 | the placeholder at an offset becomes a jump to the current PC; no other byte changes |
| `OctoAssembler.Assembler.DefineLabel` | cpu/chip8/octo.c:211-220 | a label gets the current PC, a known one is moved to it; a full table is an error |
| `OctoAssembler.Assembler.EmitAddrOp` | cpu/chip8/octo.c:223-244 | a known label, a number or a recorded forward reference ends up in the emitted instruction |
| `OctoAssembler.Assembler.ParseLoop` | cpu/chip8/octo.c:468-473 | a loop remembers its own address, up to 64 deep |
| `OctoAssembler.Assembler.ParseAgain` | cpu/chip8/octo.c:475-481 | again jumps to the innermost open loop, or is an error |
| `OctoAssembler.Assembler.ParseIfBegin` | cpu/chip8/octo.c:483-506 | if..begin emits the inverted skip and a jump to be patched |
| `OctoAssembler.Assembler.ParseElse` | cpu/chip8/octo.c:508-517 | else patches the jump before it and leaves its own |
| `OctoAssembler.Assembler.ParseEnd` | cpu/chip8/octo.c:519-524 | end patches the innermost open jump, or is an error |
| `OctoAssembler.Assembler.ParseStmt` | cpu/chip8/octo.c:468-712 | one modelled statement: the image and all tables are right for one statement more, or the program is not acceptable |
| `OctoAssembler.Assembler.ResolveFwds` | cpu/chip8/octo.c:741-760 | every forward reference gets its label, and it fails exactly when one has none |
| `OctoAssembler.Compile` | cpu/chip8/octo.c:795-807 | succeeds if and only if the program is acceptable; then every statement has its final bytes at its address, all jumps patched to their real targets, and the rest of the buffer is untouched |
| `Octo.Limits` | cpu/chip8/octo.c:13-18 | an accepted program has at most 1024 labels, 64 open loops, 64 open jumps and 4096 forward references |
| `OctoSimulation.PlainCorrect` | cpu/chip8/octo.c:539-694 | every one-instruction statement encodes to an instruction that does what the statement means |
| `OctoSimulation.SkipsCorrect` | cpu/chip8/octo.c:288-322 | both skip forms of all six conditions test what the condition says |
| `OctoSimulation.StepSimulated` | cpu/chip8/octo.c:468-694 | one source statement is the stated number of machine steps, into the matching state |
| `OctoSimulation.RunSimulated` | cpu/chip8/octo.c:468-694 | the machine follows every source run, statement by statement, while nothing happens outside |
| `OctoSimulation.LoadedMatches` | cpu/chip8/octo.c:773-819 | loaded at 0x200, the assembled bytes start in step with the first statement |
| `Octo.DataBytes` | cpu/chip8/octo.c:432-443 | data bytes modulo 256, data words with the high byte first; the first statement is at 0x200 |
| `OctoSimulation.KeySimulated` | hardware/machine/chip8/machine_chip8.c:290-300 | a key press answers an awaited key on both sides alike |
| `OctoEvents.OutsideSimulated` | hardware/machine/chip8/machine_chip8.c:266-321 | the end of a frame, with its timers, newly held keys and a key press leave machine and source in step |
| `OctoEvents.OutsideMeans` | hardware/machine/chip8/machine_chip8.c:266-321 | in plain numbers: a frame takes one from each timer above zero, held keys replace the old ones, a press ends only a wait |
| `OctoEvents.WithinIfSimulated` | hardware/machine/chip8/machine_chip8.c:303-321 | so they do when a frame ends between the skip and the jump of a failed if..begin: the jump still comes after them |
| `OctoEvents.EventsSimulated` | hardware/machine/chip8/machine_chip8.c:256-324 | whole runs under the loop, statements mixed with frames, held keys and key presses in any order: the machine is with the source throughout |
| `OctoSimulation.AcceptedIsClosed` | cpu/chip8/octo.c:798-803 | in an accepted program every if and else has its partner, every again its loop, every name its label |
| `OctoSimulation.ScanCountsIfs` | cpu/chip8/octo.c:483-524 | the partner of an if or else is found at its own nesting depth |
| `OctoSimulation.FindLoopCounts` | cpu/chip8/octo.c:468-481 | exactly the loops counted as open are found by the backward scan |
| `OctoSimulation.LabelDefinedOnce` | cpu/chip8/octo.c:211-244 | a label defined once is what every reference to it means, forward or backward |
| `OctoSimulation.ThenSkipsOneStatement` | cpu/chip8/octo.c:490-494 | a false if..then lands behind the next statement if and only if that statement is one instruction long |
| `OctoOnCache.Where` | cpu/chip8/chip8_cpu.c:311-321 | after any number of machine steps within a source run: how many statements are done, that the program is intact, and that the next step is an instruction of it |
| `OctoOnCache.SourceStoresNoCode` | cpu/chip8/chip8_cpu.c:299-309 | a source run implies what the cache needs: no block executed within it, from between statements or inside an if..begin, stores into a cached block |
| `OctoOnCache.CachedRunMatchesSource` | cpu/chip8/chip8_cpu.c:299-309 | however many cached blocks execute within a source run, the emulator stands at a source state, or between the skip and the jump of a failed if..begin |
| `OctoOnCache.CompiledProgramRuns` | cpu/chip8/octo.c:795-807 | end to end: assembled, loaded, and run from an empty translation cache, a program is at such a point of its source after every block |
| `OctoLoop.LoopFollowsSource` | hardware/machine/chip8/machine_chip8.c:256-324 | the whole loop, from any point of a source run: cached blocks, frames, held keys and key presses in any order keep source and machine in step and the cache right, wherever the frames cut the blocks |
| `OctoLoop.CompiledProgramLoops` | hardware/machine/chip8/machine_chip8.c:256-324 | end to end: an assembled program, loaded and run by the loop from an empty cache, goes where its source goes |
| `Apu.Apu2a03.TickOne` | audio/apu2a03.c:165-275 | one CPU cycle, in place, is the specified transition of the whole integer state |
| `Apu.Apu2a03.Run` | audio/apu2a03.c:299-301 | catches up cycle by cycle, and not at all when already there |
| `ApuRegisters.WriteReachesOneUnit` | audio/apu2a03.c:327-459 | a write changes the unit its address belongs to and no other; $4015 reaches all but the frame counter, an unknown address nothing |
| `ApuRegisters.NoteStarts` | audio/apu2a03.c:332-352 | the two pitch writes of a pulse set all 11 bits whatever they were, load the length if the channel is on, and restart envelope and duty |
| `ApuRegisters.SwitchedOff` | audio/apu2a03.c:426-447 | a channel switched off by $4015 reads as silent at once, one left on keeps its length, and the DMC flag is gone |
| `ApuRegisters.StatusBits` | audio/apu2a03.c:461-475 | each of the eight status bits says one thing about one unit |
| `ApuRegisters.ReadClears` | audio/apu2a03.c:461-475 | reading the status clears the frame flag at the next odd cycle, unless the sequence raises it right then |
| `Apu.Apu2a03.DoFill` | audio/apu2a03.c:477-491 | a delivered byte: buffer, address wrap, count, loop or interrupt |
| `Apu.Apu2a03.DoTickFrame` | audio/apu2a03.c:246-275 | frame counter: delayed writes, clock positions, wrap and interrupt flag |
| `ApuLazy.InvTick` | audio/apu2a03.c:165-275 | the invariant survives a cycle: a pending DMA has an empty buffer and bytes left, an empty buffer with bytes left is pending or waiting to start |
| `ApuLazy.InvWrite` | audio/apu2a03.c:327-459 | the invariant survives any register write of a byte |
| `ApuLazy.InvFill` | audio/apu2a03.c:477-491 | the invariant survives any delivery that answers a request |
| `ApuLazy.InvInit` | audio/apu2a03.c:507-535 | the invariant holds in the reset state |
| `ApuLazy.RunOps` | audio/apu2a03.c:165-491 | every allowed run of cycles, writes, reads and deliveries keeps the invariant |
| `ApuLazy.SweepInRange` | audio/apu2a03.c:61-72 | a sweep that is not muted takes a period within 11 bits |
| `ApuMeaning.SweepMoves` | audio/apu2a03.c:143-157 | a sweep takes the period down by itself over 2^k (one more on pulse 1) when negated, else up, and leaves it below 8, above 0x7FF, switched off or between two divider expiries |
| `ApuMeaning.HalfFrame` | audio/apu2a03.c:119-161 | a half-frame clock does that to both pulses, moves three envelopes, four lengths and the linear counter, and nothing else |
| `ApuMeaning.QuarterFrame` | audio/apu2a03.c:119-128 | a quarter-frame clock moves the three envelopes and the linear counter, and nothing else |
| `ApuMeaning.EnvelopeDecays` | audio/apu2a03.c:40-52 | any number of clocks of a running envelope in closed form: divider, level, stopping at 0 or looping |
| `ApuMeaning.NoteDecays` | audio/apu2a03.c:40-52 | from the start of a note the level is 15 less one for every vol + 1 clocks |
| `ApuMeaning.TriangleRuns` | audio/apu2a03.c:169-177 | any number of cycles of the triangle in closed form: timer, and steps of its wave |
| `ApuMeaning.PulseRuns` | audio/apu2a03.c:180-188 | the same for a pulse and the steps of its duty |
| `ApuMeaning.NoiseShifts` | audio/apu2a03.c:190-199 | the noise register shifts right with the feedback of bits 0 and 1, or 0 and 6, on top, and never sticks at zero |
| `ApuMeaning.OutputBit` | audio/apu2a03.c:211-231 | one DMC bit: level up or down by two within 0 to 127, and what happens after the eighth |
| `ApuMeaning.SampleFetched` | audio/apu2a03.c:477-491 | any number of delivered bytes in closed form: consecutive addresses, 0x8000 after 0xFFFF, loop or interrupt after the last |
| `ApuMeaning.ReaderFetches` | audio/apu2a03.c:233-243 | without an external DMA an empty buffer gets the byte of memory at the current address |
| `ApuMeaning.PulseControl` | audio/apu2a03.c:330-335 | a control byte built from its fields sets exactly those fields |
| `ApuMeaning.PulseSweepControl` | audio/apu2a03.c:336-343 | so does a sweep byte |
| `ApuMeaning.PulsePitch` | audio/apu2a03.c:344-352 | the pitch registers replace their part of the period; the second loads the length and starts the note |
| `ApuMeaning.TriangleRegisters` | audio/apu2a03.c:378-389 | the triangle's registers, field by field |
| `ApuMeaning.NoiseControl` | audio/apu2a03.c:391-395 | the noise control byte from its fields |
| `ApuMeaning.NoiseRate` | audio/apu2a03.c:396-399 | mode and period of the noise from their byte, with the whole table of periods |
| `ApuMeaning.NoiseStart` | audio/apu2a03.c:400-403 | the noise length from its byte, with the whole table of lengths |
| `ApuMeaning.DmcControl` | audio/apu2a03.c:405-412 | interrupt, loop and rate from their byte; switching the interrupt off clears its flag |
| `ApuMeaning.DmcRates` | audio/apu2a03.c:19-22 | the rate table |
| `ApuMeaning.DmcSample` | audio/apu2a03.c:413-424 | level, start address and length of a sample from their bytes |
| `ApuMeaning.StatusRegister` | audio/apu2a03.c:426-440 | the five channel switches from their bits |
| `ApuMeaning.FrameRegister` | audio/apu2a03.c:449-457 | a $4017 byte from its fields: inhibit at once, mode when it lands 3 or 4 cycles later |
| `ApuLazy.PredictorIsSafe` | audio/apu2a03.c:303-321 | from every reachable state, fewer cycles than predicted change none of the frame IRQ, DMC IRQ and DMA request |
| `ApuLazy.RequestParity` | audio/apu2a03.c:203-243 | a reload DMA is raised on even cycles only, the first fetch after an enable on odd ones |
| `ApuLazy.ReloadExactly` | audio/apu2a03.c:303-321 | with a table period the reload comes on exactly the cycle the closed form gives, and not before |
| `ApuLazy.UnsetRateIsEarly` | audio/apu2a03.c:303-321 | before $4010 was written (period 0) the closed form is early unless exactly one bit is left |
| `ApuLateRun.UnsetRunIsEarly` | audio/apu2a03.c:303-321 | a run from reset that starts a sample without ever writing $4010: it plays, and at the predicted cycle nothing is asked for |
| `ApuMachine.LateDeliveryExactly` | hardware/machine/mos/machine_nes.c:1384-1390 | a byte delivered to a unit n cycles behind has the effect of one delivered on time if and only if the output unit did not look for it meanwhile |
| `ApuMachine.NotTakenExactly` | audio/apu2a03.c:303-321 | with a table period that is: if and only if n is less than the closed form |
| `ApuLate.DeliverySeenExactly` | hardware/machine/mos/machine_nes.c:1384-1390 | after a delivery to a stale unit the CPU sees the same as from a per-cycle machine in every continuation whose own deliveries are in time, if and only if the output unit had not looked for the byte meanwhile |
| `ApuLate.ProbeTells` | audio/apu2a03.c:426-447 | three cycles after restarting the sample, a unit that took the byte and one that still holds it show different lines |
| `ApuLateRun.LateRunDiffers` | hardware/machine/mos/machine_nes.c:1384-1390 | a run from reset: rate, sample length and frame mode written while 131394 cycles pass, a start, and one delivery two cycles after its request; the lazy machine makes a request the per-cycle machine does not make |
| `ApuMachine.DeliveryExactly` | hardware/machine/mos/machine_nes.c:1384-1390 | the same condition for the whole unit inside the lazy machine |
| `ApuMachine.LazyIsEager` | hardware/machine/mos/machine_nes.c:1262-1280 | over any run whose deliveries come in time, the machine that skips ahead shows the CPU every status byte and every line the per-cycle machine would |
| `ApuMachine.LazyFromReset` | hardware/machine/mos/machine_nes.c:1262-1313 | the same from reset |
| `ApuMachine.Console.CatchUp` | hardware/machine/mos/machine_nes.c:1262-1280 | batches of at most 256 cycles reach exactly the state of the single ticks, and set the deadline |
| `ApuMachine.Console.StepCycle` | hardware/machine/mos/machine_nes.c:1308-1313 | the unit is brought up to date only from its deadline on |
| `ApuMachine.Console.WriteRegister` | hardware/machine/mos/machine_nes.c:1750-1757 | the in-place write catches up, writes and looks for the next event again: the lazy machine's step |
| `ApuMachine.Console.ReadStatusRegister` | hardware/machine/mos/machine_nes.c:1534-1542 | the in-place status read catches up first, and answers what the lazy machine answers |
| `ApuMachine.Console.DeliverByte` | hardware/machine/mos/machine_nes.c:1386-1389 | the in-place delivery does not catch up: the lazy machine's step |
| `ApuFrame.LandingPutsInPhase` | audio/apu2a03.c:256-261 | a landing $4017 write gives sequence position and cycle opposite parity |
| `ApuFrame.PhaseForever` | audio/apu2a03.c:246-275 | the opposite parity is kept for ever, across wraps, mode changes and further writes |
| `ApuFrame.CountsByPosition` | audio/apu2a03.c:261-272 | how many of the next cycles clock envelopes and lengths, from any position |
| `ApuFrame.SequenceClocks` | audio/apu2a03.c:119-161 | every write-free sequence clocks each envelope exactly four times and each length counter exactly twice, from any phase |
| `VncUpdate.BuildWant` | core/src/vnc.c:442-451 | the wanted screen shows the frame itself at equal size, else at every place the frame pixel it stands over, row by row |
| `VncUpdate.ScaledInFrame` | core/src/vnc.c:448-450 | scaling never reads outside the frame |
| `VncUpdate.ShowsNearest` | core/src/vnc.c:448-450 | in whole numbers: screen pixel (x, y) is frame pixel (i, j) for the i and j with i*cw <= x*fw < (i+1)*cw and j*ch <= y*fh < (j+1)*ch |
| `VncUpdate.TileDirty` | core/src/vnc.c:470-476 | a tile is dirty exactly when everything is resent or one of its pixels differs |
| `VncUpdate.TileRow` | core/src/vnc.c:465-486 | the merged runs of a tile row are exactly its dirty tiles, in order, none touching the next |
| `VncUpdate.DirtyRects` | core/src/vnc.c:459-486 | the rectangles lie on the screen, do not overlap, cover exactly the dirty tiles, and are at most half as many as the tiles |
| `VncUpdate.MakeUpdate` | core/src/vnc.c:488-511 | the message carries those rectangles with the wanted pixels, and their 16-bit count |
| `VncPixel.PutPixel` | core/src/vnc.c:275-284 | one pixel, in place: its channels scaled, shifted together, and stored in the format's byte order; nothing else of the row changes |
| `VncPixel.PutRow` | core/src/vnc.c:506-508 | one row of pixels, in place |
| `VncPixel.ChannelBytes` | core/src/vnc.c:276-276 | red, green and blue are the second, third and fourth byte of a pixel |
| `VncPixel.ScaleRounds` | core/src/vnc.c:277-279 | a scaled channel is the whole number nearest to c * max / 255 |
| `VncPixel.PixelReadBack` | core/src/vnc.c:275-284 | in any format whose channels are bit fields of their own, either byte order, a viewer reads every channel back, rounded to its width |
| `VncPixel.EightBitsExact` | core/src/vnc.c:275-284 | with eight bits a channel it reads the exact colour |
| `VncPixel.CommonFormats` | core/src/vnc.c:426-428 | the server's own format and the usual ones of 32, 16 and 8 bits are such formats, in either byte order |
| `VncPixel.RowReadBack` | core/src/vnc.c:506-508 | so it does for whole rows, pixel by pixel |
| `VncPixel.UpdateRowSeen` | core/src/vnc.c:501-510 | every row of an update holds the wanted pixels of its place, and the viewer reads them in its own colours |
| `VncUpdate.UpdateShown` | core/src/vnc.c:437-517 | a client in step with the comparison screen (for a full update: any client) shows exactly the wanted screen after the message, if its count fits |
| `VncUpdate.CountMustFit` | core/src/vnc.c:488-489 | the client shows the wanted screen if and only if the number of rectangles fits 16 bits |
| `VncCount.CountOverflows` | core/src/vnc.c:488-489 | from a black to a chequered screen of 8192 by 4112 pixels it does not fit, and the client is left with the wrong screen |
| `VncUpdate.SmallScreensFit` | core/src/vnc.c:459-462 | the count fits whenever half the tiles are fewer than 65536 |
| `VncSession.FinishShows` | core/src/vnc.c:554-557 | for frames of any size: while every update before it fitted, a finished update leaves the client with exactly the frame it was built from if and only if its own count fits |
| `VncSession.FullUpdateFits` | core/src/vnc.c:488-489 | the count of a full update always fits |
| `VncStream.StreamReadExactly` | core/src/vnc.c:488-511 | the stream of any updates, read by the counts in their headers, gives back the updates sent if all counts fit, and loses the place of the next header if one does not |
| `VncStream.SessionRead` | core/src/vnc.c:488-511 | at every moment of a session, its updates all fitted if and only if the viewer can read them all |
| `VncSession.SessionShows` | core/src/vnc.c:524-562 | at every moment of a session, an idle client with the server's sequence number shows the published frame, unless an update of the session had too many rectangles; formats changed with full updates only |
| `VncSession.SmallSessionExact` | core/src/vnc.c:459-462 | a session of frames of up to 65535 pairs of tiles never has such an update |
| `VncSession.SentSeqRises` | core/src/vnc.c:545-552 | the sequence number sent never goes back, nor ahead of the server's |
| `VncSession.FormatChangeResends` | core/src/vnc.c:603-611 | after a pixel-format change the next update is a full one |
| `VncSession.UpdatesAnswerRequests` | core/src/vnc.c:627-636 | every update answers a request of its own |
| `VncSession.Connection.SendUpdate` | core/src/vnc.c:437-517 | the in-place sender: comparison screen, message and failure |
| `VncSession.Connection.TakeUpdate` | core/src/vnc.c:530-552 | the writer's turn under the lock |
| `VncSession.Connection.UpdateArgb` | core/src/vnc.c:896-914 | publishing the same frame again changes nothing; any other raises the sequence number |
| `DriveOptions.NextOpt` | core/src/drive.c:317-334 | splits off one option in place, returning key and value as C strings, with text before and unread text after untouched |
| `DriveOptions.SplitAll` | core/src/drive.c:364-368 | repeated, it gives all options of the text |
| `DriveOptions.RoundTrip` | core/src/drive.c:315-334 | printing options with plain keys and any values, and splitting them, gives them back |
| `DriveTable.Table.ReadOptions` | core/src/drive.c:354-411 | an option string becomes settings, or an error when too long or wrong |
| `DriveRequests.RequestRead` | core/src/drive.c:354-411 | any request of numbers up to 1000, a file below 512 and an id below 64 characters, printed as options, is read back field by field if it fits 1023 characters, and refused otherwise |
| `DriveRequests.SwitchWords` | core/src/drive.c:344-348 | the words for yes and no; a bare option is yes, any other word an error |
| `DriveRequests.IndexLeads` | core/src/drive.c:418-424 | an explicit index names drive index modulo 2 of an IDE bus, modulo 7 of a SCSI bus, and itself elsewhere |
| `DriveRequests.UnitLeads` | core/src/drive.c:418-432 | an explicit unit is taken on the bus named, or the first |
| `DriveRequests.CoherentMeans` | core/src/drive.c:409-416 | a CD-ROM is neither a floppy nor writable, and only it and a floppy may be empty |
| `DriveRequests.NameGiven` | core/src/drive.c:306-313 | the names of drives without an id |
| `DriveTable.Find` | core/src/drive.c:250-255 | tells whether a slot is taken |
| `DriveTable.Search` | core/src/drive.c:427-432 | the automatic search ends and gives the first free slot in search order from unit 0 of the bus |
| `DriveTable.IndexRecovered` | core/src/drive.c:419-424 | an explicit index comes back unchanged from its bus and unit |
| `DriveTable.SlotUnique` | core/src/drive.c:418-432 | a request has exactly one slot |
| `DriveTable.Table.Place` | core/src/drive.c:412-457 | a drive is added if and only if its settings, slot, room and id allow it; no two drives ever share a slot and bounded units stay below their maximum |
| `DriveTable.Table.Add` | core/src/drive.c:354-458 | the whole of -drive, from text to table |
| `DriveTable.DecRoundTrip` | core/src/drive.c:336-342 | printed numbers are read back, up to 1000 |
| `DriveTable.EscapeFile` | core/src/drive.c:462-468 | commas doubled, cut only when far too long for the parser |
| `DriveTable.LegacyPrints` | core/src/drive.c:470-472 | a shorthand builds the printed form of its four options |
| `DriveTable.Table.AddLegacy` | core/src/drive.c:460-474 | a shorthand adds the drive it names if and only if the whole string fits 1023 characters |
| `DriveTable.FileUnchanged` | core/src/drive.c:369-371 | its file name arrives unchanged if and only if it is shorter than 512 characters |
| `DriveTable.LongNameIsCut` | core/src/drive.c:369-371 | a 600-character name fits the string and is cut without an error |
| `DriveSnapshot.Disk.Read` | core/src/drive.c:132-144 | reads the visible bytes, across any chunk boundaries |
| `DriveSnapshot.Disk.Write` | core/src/drive.c:146-168 | patches the visible bytes; with snapshot=on the file is untouched |
| `DriveSnapshot.Disk.CopyChunk` | core/src/drive.c:158-164 | the first write to a chunk copies it and changes nothing visible |
| `DriveSnapshot.Disk.Serve` | core/src/drive.c:132-168 | any sequence of accesses is answered as a plain byte array answers it |
| `DriveSnapshot.LastWriteWins` | core/src/drive.c:132-168 | every byte of that array is the last one written there, or the original |
| `MonitorQueue.Monitor.EnqueueEntry` | core/src/monitor.c:288-307 | numbers and queues an entry, or returns 0 exactly when 31 are waiting |
| `MonitorQueue.Monitor.AskLine` | core/src/monitor.c:328-334 | the capturing client's request, in place, is the queue protocol's step |
| `MonitorQueue.Monitor.EndWait` | core/src/monitor.c:336-347 | the wait ends as done exactly when the entry was dispatched, and then hands over the captured text |
| `MonitorQueue.Monitor.PollTake` | core/src/monitor.c:821-833 | the poller takes the oldest entry, or nothing from an empty queue |
| `MonitorQueue.Monitor.PollFinish` | core/src/monitor.c:841-851 | the finished entry becomes the last one done |
| `MonitorQueue.Monitor.TakeEntry` | core/src/monitor.c:821-833 | takes the oldest entry, clearing the capture buffer for one that captures |
| `MonitorQueue.Monitor.FinishEntry` | core/src/monitor.c:841-851 | records the entry as done and stops capturing |
| `MonitorQueue.Capture.Append` | core/src/monitor.c:109-121 | the buffer holds the old text and the new, doubled when too small |
| `MonitorQueue.Limits` | core/src/monitor.c:288-307 | 31 entries wait at most, and lines are cut to 255 characters |
| `MonitorQueue.Outstanding` | core/src/monitor.c:288-307 | at every moment of every run, numbers handed out less numbers done are the entries queued or in flight |
| `MonitorQueue.RunsInOrder` | core/src/monitor.c:821-851 | at every moment of every run, the entries that ran are, one by one, the first of those queued, and neither history ever changes but by growing |
| `MonitorQueue.OutcomeMeans` | core/src/monitor.c:328-374 | a producer finds its number done if and only if the very entry it queued has run; a refused one left no entry |
| `MonitorQueue.CollectsItsOutput` | core/src/monitor.c:328-347 | what the capturing client collects is exactly what the entry of its own request printed while it ran, whatever timed out before |
| `MonitorQueue.WaitsForItsRequest` | core/src/monitor.c:328-347 | the client waits for the number of its last request |
| `QmpFraming.Connection.FeedRead` | core/src/monitor_qmp.c:584-624 | one read, fed in place |
| `QmpFraming.Connection.FrameAppend` | core/src/monitor_qmp.c:559-570 | appends one byte, doubling the buffer when it is full |
| `QmpFraming.CutsDoNotMatter` | core/src/monitor_qmp.c:541-549 | how the stream is cut into reads makes no difference |
| `QmpFraming.InvFeed` | core/src/monitor_qmp.c:584-624 | depth is zero exactly when nothing or a bare word is buffered |
| `QmpFraming.Skipped` | core/src/monitor_qmp.c:587-590 | exactly six characters are skipped between values |
| `QmpFraming.InputLimit` | core/src/monitor_qmp.c:604-608 | a value is given up exactly when it has 1048576 characters and one more comes |
| `QmpFraming.ValueIsFramed` | core/src/monitor_qmp.c:609-622 | any well-nested value, whatever its strings hold, is handed over whole |
| `QmpFraming.WordIsReported` | core/src/monitor_qmp.c:591-602 | a bare word is reported at the white space after it, cut to 64 characters |
| `QmpFraming.StreamIsFramed` | core/src/monitor_qmp.c:584-624 | any stream of values and words, with any white space and any cutting, is handed over token by token, in order |
| `Sha256.Transform` | core/src/sha256.c:33-48 | the in-place rounds are the compression of section 6.2.2 of FIPS 180-4 |
| `Sha256Vectors.AbcDigest` | core/src/sha256.c:33-48 | the digest of "abc" is the published one, round by round; with it every constant and every rotation is fixed |
| `Sha256Vectors.ChChooses` | core/src/sha256.c:7-7 | each bit of Ch is that of its second or third argument, as the first says |
| `Sha256Vectors.MajAgrees` | core/src/sha256.c:8-8 | each bit of Maj is that of two of its three arguments at least |
| `Sha256Vectors.RotationBits` | core/src/sha256.c:6-6 | each bit of a rotation is the bit so many places above it, around the word |
| `Sha256Vectors.Sum0Bits` | core/src/sha256.c:9-9 | bit k of the first big sum is the parity of bits k + 2, k + 13 and k + 22, around the word |
| `Sha256Vectors.Sum1Bits` | core/src/sha256.c:10-10 | of the second: bits k + 6, k + 11 and k + 25 |
| `Sha256Vectors.Sigma0Bits` | core/src/sha256.c:11-11 | of the first small sum: bits k + 7 and k + 18, around the word, and k + 3, where there is one |
| `Sha256Vectors.Sigma1Bits` | core/src/sha256.c:12-12 | of the second: bits k + 17 and k + 19, around the word, and k + 10, where there is one |
| `Sha256Vectors.BlockBytes` | core/src/sha256.c:35-37 | the words of a block hold its bytes, the first one highest |
| `Sha256.Context.Update` | core/src/sha256.c:59-74 | the state has absorbed the whole blocks so far and the buffer holds the rest, for any cutting |
| `Sha256.Context.Final` | core/src/sha256.c:76-97 | the digest of the whole message: the fold over the padding of section 5.1.1 |
| `Sha256.TailBlocks` | core/src/sha256.c:76-90 | padding is one block, or two when the length does not fit |
| `Sha256.BitsWrap` | core/src/sha256.c:85-89 | only the length modulo 2^64 shows in the padding |
| `Sha256.HashReads` | core/src/sha256.c:99-112 | hashing any sequence of reads gives the digest of their concatenation |
| `Crc32.TableStep` | core/src/screendump.c:21-34 | one table look-up does the work of eight single bits |
| `Crc32.CrcByTable` | core/src/screendump.c:57-60 | the table-driven CRC equals the bit-by-bit CRC |
| `Crc32.EndValue` | core/src/screendump.c:60-63 | the check value of an end chunk is AE426082 |
| `Screendump.ComputeAdler` | core/src/screendump.c:37-44 | both sums of RFC 1950 modulo 65521 |
| `Screendump.BuildRaw` | core/src/screendump.c:84-93 | a zero filter byte and the pixels, per row |
| `Screendump.BuildZlib` | core/src/screendump.c:95-124 | stored blocks fill a buffer of exactly the computed size |
| `Screendump.InflateBlocks` | core/src/screendump.c:107-119 | a decoder of stored blocks gets the data back |
| `Screendump.ZlibRoundTrip` | core/src/screendump.c:95-124 | header, stored blocks and checksum are read back to the raw data |
| `Screendump.RawRoundTrip` | core/src/screendump.c:84-93 | the scanlines give the pixels back |
| `Screendump.ChunkRoundTrip` | core/src/screendump.c:51-64 | a chunk is read back, its check value right |
| `Screendump.PngRoundTrip` | core/src/screendump.c:66-127 | a reader of the whole file recovers size and pixels exactly |
| `Screendump.FileBytes` | core/src/screendump.c:70-124 | the first and last bytes of every file: signature, header chunk, start of the data chunk, end chunk with its check value |
| `Screendump.AdlerKnown` | core/src/screendump.c:37-44 | the Adler-32 of "abc" is 024D0127, and both sums are modulo 65521 |
| `Screendump.WritePng` | core/src/screendump.c:66-127 | the writer, in place |
| `RepIo.SetXrReads` | cpu/ia64/merced_ia32.c:52-67 | a register reads back what was written, the others keep their values |
| `RepIoMeaning.ByteWrite` | cpu/ia64/merced_ia32.c:52-67 | a byte write changes one byte of one register: the lowest of the first four, or the second of them |
| `RepIo.Cpu.Iterate` | cpu/ia64/merced_ia32.c:1037-1063 | one iteration, in place; a fault before the store changes nothing |
| `RepIoMeaning.RegistersAfter` | cpu/ia64/merced_ia32.c:1031-1063 | after k iterations the index register is k elements on, upward with DF clear and downward with it set, modulo its address size; the count is k less; no other register changes |
| `RepIoMeaning.CountIs` | cpu/ia64/merced_ia32.c:1031-1031 | with REP as many iterations as the count register says, within the address size; one without |
| `RepIoMeaning.InsByte` | cpu/ia64/merced_ia32.c:1048-1058 | byte b of the j-th port value is at its address, low byte first, unless a later element covers it |
| `RepIoMeaning.InsUntouched` | cpu/ia64/merced_ia32.c:1048-1058 | no byte outside the elements changes |
| `RepIoMeaning.OutsSends` | cpu/ia64/merced_ia32.c:1040-1043 | the j-th value sent goes to port DX and has the bytes of the j-th memory element, low byte first |
| `RepIo.Cpu.Execute` | cpu/ia64/merced_ia32.c:1024-1064 | stops at the first fault with exactly the iterations before it done |
| `RepIo.RestDoesTheRest` | cpu/ia64/merced_ia32.c:1060-1063 | stopped after any iteration, the restarted instruction does exactly the rest |
| `RepIo.Cpu.ExecuteRestarting` | cpu/ia64/merced_ia32.c:1024-1064 | with any faults in any attempts: whether the attempts suffice, how many port values were lost to faulting stores, and that with enough values waiting the outcome is the uninterrupted one if and only if none was |
| `RepIo.StoreFaultLosesByte` | cpu/ia64/merced_ia32.c:1048-1057 | one byte to be read, two waiting, the store faults once: the restarted instruction finishes with the second byte in memory |
| `RepIo.MoreProgress` | cpu/ia64/merced_ia32.c:1037-1064 | one attempt more: so many iterations are done, and so many further values gone from the port |
| `RepIo.ProgressEnds` | cpu/ia64/merced_ia32.c:1048-1057 | with all iterations done the state is the uninterrupted one if and only if no value was lost |
| `RepIo.TakesOneEach` | cpu/ia64/merced_ia32.c:1040-1058 | k iterations take k values from the port in order, or send k |
| `SparseMemory.Bus.Page` | src/ia64_selftest.c:44-61 | probing finds the page's one slot, or makes it while there is room |
| `SparseMemory.EmptyMeansAbsent` | src/ia64_selftest.c:50-58 | an empty slot on the way proves the page absent |
| `SparseMemory.FullMeansAbsent` | src/ia64_selftest.c:60-60 | a probe of all slots proves the page absent and the table full |
| `SparseMemory.Bus.Read` | src/ia64_selftest.c:63-72 | a read is the map's, at any size and alignment, wrapping at 2^64 |
| `SparseMemory.Bus.Write` | src/ia64_selftest.c:74-81 | a write is the map's; bytes of untouched pages are dropped only when the table is full |
| `SparseMemory.PutIsBytes` | src/ia64_selftest.c:74-81 | a write of any size is its single bytes, in order, wrapping at 2^64 |
| `SparseMemory.FirstWrite` | src/ia64_selftest.c:74-81 | the first byte written to an empty memory is surrounded by a page of 4096 zeros; all else reads 0xFF |
| `SparseMemory.TopWraps` | src/ia64_selftest.c:63-72 | after the last address, 2^64 - 1, comes address 0 |
| `SparseMemory.LastByteWins` | src/ia64_selftest.c:63-81 | while the pages written to fit the table, even filling it: every byte is the last one written, zero elsewhere in pages touched first by the run, and what it was in others |
| `SparseMemory.ReadsLatest` | src/ia64_selftest.c:63-72 | a value read, of any size and alignment, is made of such bytes |
| `SparseMemory.Bus.Serve` | src/ia64_selftest.c:44-81 | any run of sized reads and writes from an empty memory is answered so |
| `BlockTray.Monitor.Run` | core/src/monitor_block.c:202-223 | any block operation, in place, with its reply |
| `BlockTray.NodesAreExclusive` | core/src/monitor_block.c:156-177 | no node backs two drives, none is deleted while attached |
| `BlockTray.CaseIgnored` | core/src/monitor_block.c:35-42 | devices are found by name without regard to case |
| `BlockTray.SixteenNodes` | core/src/monitor_block.c:130-142 | there is room for a node if and only if one of sixteen is unused |
| `BlockTray.OpensOnlyRemovable` | core/src/monitor_block.c:51-86 | a tray opens only on a drive that can eject and change, and only a callback that asks for it resets the machine |
| `BlockTray.StepExactly` | core/src/monitor_block.c:58-230 | every operation keeps links, places and names if and only if it is not a refused change that empties a closed drive with a node behind it |
| `BlockTray.RefusedExactly` | core/src/monitor_block.c:193-198 | the same for the refused change itself |
| `BlockTray.RunKeeps` | core/src/monitor_block.c:58-230 | over every run of such operations: drives and nodes name each other, a medium is in the tray only while it is open, and a node is the file of the medium its drive holds |
| `BlockTray.StrandedNodeStaysBusy` | core/src/monitor_block.c:180-200 | from any sound state with a node behind a closed drive, a refused change, opening and inserting leave a busy node with no drive |
| `BlockTray.StrandingReached` | core/src/monitor_block.c:58-200 | such a state is reached from a fresh monitor on every removable drive |
| `BlockTray.Monitor.ConsoleChange` | core/src/monitor_cmds.c:951-958 | the console's change takes the medium out of the tray and closes it |
| `BlockTray.Monitor.ConsoleEject` | core/src/monitor_cmds.c:913-926 | the console's eject takes the medium out and opens the tray |

## Left out

- CHIP-8 stack overflow and underflow and Fx33 within two bytes of the end of memory are preconditions of an instruction; execution counters of blocks and the debug output of single-stepping are not modelled.
- OctoAssembler.Assembler.ParseStmt: macros, `:org`, `:alias`, `:const` and the spelling of tokens are not modelled, so statements arrive with registers, constants and numbers looked up; nor are SCHIP statements, `>>=` and `<<=`, and the cut of names longer than 63 characters.
- OctoAssembler.Assembler.DefineLabel: the cut of names at 63 characters is not modelled.
- OctoAssembler.Assembler.EmitAddrOp: the cut of forward names at 63 characters is not modelled, nor names that begin with a digit.
- OctoAssembler.Compile: tokenising and the built-in constants are not modelled.
- OctoEvents.EventsSimulated: reset, pausing and the monitor's commands are not events of a run.
- OctoLoop.LoopFollowsSource: reset, pausing and the monitor's commands are not turns of the loop.
- VncStream.StreamReadExactly: what the viewer makes of rectangles it takes for messages is not modelled.
- Octo code that ends at or above 0x1000: addresses in instructions have 12 bits, so the simulation asks for code below it; assembling is modelled for any length.
- The sound unit's mixer, sample buffer, output level tables and write tap; 64-bit wrap-around of the cycle counter; the CPU's own DMA timing (a delivery is an operation of the run, allowed when a request is pending or the channel was stopped); chips on the cartridge that force per-cycle ticking. A unit that fetches by itself reads a fixed byte sequence.
- VncUpdate.MakeUpdate: screens are compared as the pairs of client format and 32-bit value that are sent; two values can look the same in a coarse format. 32-bit overflow in the scaling products is not modelled.
- VncPixel.PutPixel: shifts of 32 bits and more, which C leaves undefined, are not modelled.
- VNC handshake, authentication, address parsing, input events and the list of clients; the wake-up of waiting threads. Failing allocations and sends appear as one failed update that ends the session.
- Opening image files: whether a file opens is a parameter; reads of an opened image succeed. The check for qcow2 images is not modelled.
- DriveSnapshot.Disk.CopyChunk: chunks are values in an array, so two chunks sharing memory cannot be expressed.
- The monitor's command table, what a command does, the paused flag, and the 64 KiB limit on one print; time itself (a waiter may give up whenever its entry is not done); more than one capturing client at once.
- cJSON and QMP commands: a framed value is its bytes. Failing allocations while framing.
- Screendump.WritePng: pictures whose data chunk would not fit a 32-bit length, and PPM output, are not modelled.
- Sha256.Context.Final: the bit count is modelled modulo 2^64 as the code keeps it; FIPS 180-4 defines no longer messages.
- The rest of the IA-32 decoder, the delivery of the fault itself and 4 GiB wrap-around inside one element; fault handlers are assumed to leave registers, memory and ports as they are.
- SparseMemory.Bus.Page: a failing page allocation is not modelled.
- Device lookup of the console's `change` and `eject`, and `flip`; file names longer than their 511-character buffers in the block layer.
