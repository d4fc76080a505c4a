# FreeRTOS port layer for 8-bit AVR (Arduino), in Dafny

This project models the hardware-facing port layer of the Arduino FreeRTOS
library and its configuration header, and proves properties of that model.

The port layer covers:

- the register save and restore sequences, `portSAVE_CONTEXT` and
  `portRESTORE_CONTEXT`;
- the initial stack frame of a new task, `pxPortInitialiseStack`;
- the manual yield and the yield from the tick, `vPortYield` and
  `vPortYieldFromTick`;
- the start of the scheduler, `xPortStartScheduler`;
- the set-up of the tick interrupt (watchdog, timer 2 or timer 3), `prvSetupTimerInterrupt`;
- the preemptive and cooperative tick interrupt routines.

`FreeRTOSConfig.h` chooses the tick source and rate per board and sets the
heap size per MCU family.

The files are:

- `avr.dfy` (module `Avr`): the part of the AVR core the port drives by hand.
  - The class `Cpu` holds r0..r31, SREG, RAMPZ, EIND, the 16-bit stack pointer, the
    program counter, `pxCurrentTCB`, and the data memory as an `array`.
  - Two flags describe the part: `extended` (one of the five parts with
    RAMPZ and EIND, the source's test) and `threeBytePc` (a 22-bit program
    counter, which only the ATmega2560 and 2561 have).
  - It has the instructions the sequences use: `push`, `pop`, `ret`, `lds`
    into X, `st x+` and `ld x+`.
  - The module also has the push/pop discipline as functions on memory
    values, and bit-level OR/AND over bytes.
- `context_switch.dfy` (module `ContextSwitch`): Save and Restore as methods
  on a `Cpu`, split into the phases of the assembly. They are proved against
  the register image a Save leaves (`Image`, `SavedMemory`) and the context a
  Restore rebuilds (`RestoredContext`). Save followed by Restore is proved to
  be the identity.
- `stack_frame.dfy` (module `StackFrame`): `pxPortInitialiseStack` writes into
  an `array`, one byte at a time. It is proved to write the markers, the
  entry address and exactly the image Save would have pushed for the task's
  initial context.
- `tick_timer.dfy` (module `TickTimer`):
  - the compare-value arithmetic in `uint32_t`;
  - the three set-up routines, writing an I/O register space (class `IoSpace`);
  - the bits each routine sets or keeps.
- `config.dfy` (module `Config`): the `#if` chains of `FreeRTOSConfig.h` as
  pure functions with a `Result` for the two `#error` outcomes.
- `port.dfy` (module `Port`): the yields, the tick interrupt routine, the
  start of the scheduler and task creation.
  - The scheduler core (`xTaskIncrementTick`, `vTaskSwitchContext`) is a
    `Kernel` object. It records the calls made into it, and its decisions are
    parameters.
  - Lemmas show that a task which saved its context resumes exactly where
    its call would have returned, even after another task has run and saved
    its own context.
  - Lemmas show that a fresh frame enters the task's code with the
    parameter in r25:r24, once the builder writes an entry address as wide
    as the part's return address. As written, it does not on three parts
    (see Findings).
  - Lemmas show that each tick increments the tick count once and switches
    context only when the core reports a switch is due, and only with
    preemption.

Sources are cited relative to the repository root; `src/port.c` and
`src/FreeRTOSConfig.h` are the modelled files.

## Model

| member | source | states |
|---|---|---|
| Avr.Cpu.Push | src/port.c:149 | `push` stores the byte at SP and then decrements SP; nothing else in memory changes |
| Avr.Cpu.Pop | src/port.c:289 | `pop` increments SP and then reads the byte now under SP |
| Avr.Cpu.PopTo | src/port.c:258 | `pop rd` loads the byte above SP into rd alone and moves SP up by one |
| Avr.Cpu.LoadCurrentTcbIntoX | src/port.c:185-186 | after the two `lds`, X (r27:r26) equals pxCurrentTCB; only r26 and r27 change |
| Avr.Cpu.IncrementX | src/port.c:188 | the post-increment of X is a 16-bit increment that wraps 0xFFFF to 0, carried from r26 into r27 |
| Avr.Cpu.StoreXPostIncrement | src/port.c:188 | `st x+` writes exactly the addressed byte and then advances X |
| Avr.Cpu.LoadXPostIncrement | src/port.c:254 | `ld rd, x+` loads the addressed byte into rd, advances X, and changes no other register |
| Avr.Cpu.Ret | src/port.c:447 | `ret` pops the return address, most significant byte first, into the program counter. It pops 3 bytes on the parts with a 22-bit PC (of the five extended parts only the ATmega2560 and 2561) and 2 bytes on all others, including the ATmega640, 1280 and 1281 |
| Avr.PushBytesAt | src/port.c:155-184 | a run of pushes puts its k-th byte at SP-k and leaves every address outside the window unchanged |
| Avr.PopAfterPushMirrors | src/port.c:258-289 | popping as many bytes as were pushed returns them in reverse order |
| Avr.StoreSp | src/port.c:185-190 | the stored stack pointer reads back as the value stored, and only the two control-block bytes change |
| Avr.SplitJoin | src/port.c:328-333 | the low byte and the byte after `>>= 8` together rebuild the 16-bit address |
| Config.TickSelection | src/FreeRTOSConfig.h:150-173 | the watchdog is chosen exactly when configUSE_WATCHDOG_TICK is 1. Timer 2 or 3 is chosen exactly when selected and available on the board. The build stops with "timers 0 and 1 are used by the core" exactly for timers 0 and 1, and otherwise as unavailable. The rate is 1000/15 = 66 Hz for the watchdog and 1000 Hz for a timer |
| Config.HeapSize | src/FreeRTOSConfig.h:130-148 | the heap is 3072 bytes on the Mega type, 1024 on the Uno type and 1280 on the Leonardo type; it is undefined on any other part |
| Config.FamiliesDisjoint | src/FreeRTOSConfig.h:130-146 | no part belongs to two families, so the heap size is unambiguous |
| Config.PortTickSource | src/port.c:496-589 | port.c compiles in a set-up routine exactly when the watchdog tick is on or the timer is 2 or 3 |
| Config.PortAgreesWithHeader | src/FreeRTOSConfig.h:150-173 | whenever the header accepts a configuration, port.c sets up the very interrupt the header chose the rate for |
| Config.DefaultsSelectTimer2 | src/FreeRTOSConfig.h:50-57 | the shipped defaults tick from timer 2 at 1000 Hz, except on the Leonardo type, where the build stops |
| Config.DefaultKnobs | src/FreeRTOSConfig.h:50-108 | the defaults: watchdog tick off, timer 2, preemption on, minimal stack 112, timer-task stack equal to the minimal stack |
| ContextSwitch.Image | src/port.c:97-191 | the saved image is 33 bytes, or 35 on the parts with RAMPZ and EIND |
| ContextSwitch.Unstack | src/port.c:258-291 | the context rebuilt from the popped bytes has all 32 registers. On the parts without RAMPZ/EIND those two keep the values they had before Restore |
| ContextSwitch.UnstackInvertsImage | src/port.c:202-292 | restoring the reversed image gives back every register and SREG. On the extended parts it also gives back RAMPZ and EIND; elsewhere those two keep their values |
| ContextSwitch.CliClearsOnlyInterruptFlag | src/port.c:151 | `cli` clears SREG bit 7 and keeps bits 0..6 |
| ContextSwitch.ClrFlagsSetsZeroFlag | src/port.c:154 | `clr r1` sets Z, clears N, V and S, and keeps C, H, T and I |
| ContextSwitch.SavedMemory | src/port.c:148-191 | after Save, the current control block holds the stack pointer just below the image |
| ContextSwitch.RestoredContext | src/port.c:251-292 | Restore rebuilds all 32 registers from the image above the stored SP, and leaves RAMPZ and EIND alone on the parts without them |
| ContextSwitch.SaveThenRestoreIsIdentity | src/port.c:148-292 | Save then Restore through the same control block returns every saved register, SREG, RAMPZ and EIND |
| ContextSwitch.SavedImagePopsMirrored | src/port.c:185-190 | storing SP into the control block does not overwrite the image, so the image pops back reversed |
| ContextSwitch.SavedMemoryElsewhere | src/port.c:148-191 | Save writes nothing outside the image window and the two control-block bytes |
| ContextSwitch.SaveKeepsOtherTasksFrozen | src/port.c:148-191 | Save leaves another task's control block and its saved frame unchanged |
| ContextSwitch.PushRegisters | src/port.c:155-184 | `push r<from>` ... `push r31` pushes exactly those registers, in register order |
| ContextSwitch.PushR0AndSreg | src/port.c:149-152 | r0 and then the SREG from before `cli` are pushed; r0 is left holding SREG, and SREG has the interrupt flag cleared |
| ContextSwitch.PushExtendedAddressing | src/port.c:102-105 | RAMPZ and then EIND are pushed through r0 |
| ContextSwitch.PushR1 | src/port.c:153-154 | r1 is pushed, then cleared, with the flag effects of `clr` |
| ContextSwitch.PushStatus | src/port.c:98-107 | the status bytes are pushed; r0, r1 and SREG end as the sequence leaves them |
| ContextSwitch.StoreStackPointer | src/port.c:185-190 | SP is stored low byte first into the first two bytes of the current control block; X ends past them and r0 holds SP's high byte |
| ContextSwitch.PushImage | src/port.c:149-184 | every push of Save puts exactly `Image` below SP; r1 is cleared and SREG is left with interrupts off |
| ContextSwitch.SaveContext | src/port.c:97-191 | Save leaves memory equal to `SavedMemory` and SP below the image. It changes only r0, r1, r26, r27 and SREG, the last with interrupts off |
| ContextSwitch.StatusThenRegisters | src/port.c:98-137 | the status bytes followed by r2..r31 are the whole image |
| ContextSwitch.PopRegisters | src/port.c:258-288 | `pop r31` ... `pop r<to>`: register d receives the byte 32-d places above the starting SP; the others keep their values |
| ContextSwitch.LoadStackPointer | src/port.c:252-257 | SP becomes the value stored in the current control block (low byte first); r28 and r29 hold its two bytes; memory is unchanged |
| ContextSwitch.PopStatus | src/port.c:240-246 | on the extended parts EIND and then RAMPZ are popped; then SREG and then r0 |
| ContextSwitch.PopImage | src/port.c:258-291 | popping the whole image yields the context `Unstack` describes, and memory is unchanged |
| ContextSwitch.PoppedImage | src/port.c:258-291 | registers loaded from the bytes above SP, in pop order, are the context `Unstack` describes |
| ContextSwitch.RestoreContext | src/port.c:202-292 | Restore leaves the context equal to `RestoredContext` of the current control block, with SP just above the image |
| StackFrame.ReturnBytes | src/port.c:328-341 | the entry address takes 2 bytes, low byte first, or 3 with a zero third byte. The source writes the third byte on all five extended parts, but only the ATmega2560 and 2561 pop it (see Findings) |
| StackFrame.Placeholder | src/port.c:364-429 | register d's placeholder is d written as if hexadecimal: high nibble d / 10, low nibble d % 10 |
| StackFrame.InitialFrame | src/port.c:307-434 | the frame is 38 bytes on the parts without RAMPZ/EIND. It is 41 bytes with RAMPZ/EIND and a three-byte address, and 40 bytes with RAMPZ/EIND and a two-byte address |
| StackFrame.RegisterPhasesFormInitialContext | src/port.c:361-429 | the placeholders for R2..R23, the parameter bytes, and the placeholders for R26..R31 are r2..r31 of the initial context |
| StackFrame.WithFreshFrame | src/port.c:307-434 | after building the frame and storing its result, the control block points just below the frame |
| StackFrame.FreshFrameBytes | src/port.c:307-434 | inside the frame, memory holds the frame's bytes from the top down |
| StackFrame.FreshFrameRestoresInitialContext | src/port.c:343-429 | Restore from a fresh frame loads the initial context: the parameter in r25:r24, r1 zero, SREG = 0x80, and RAMPZ/EIND zero on the extended parts |
| StackFrame.FreshFramePopsImage | src/port.c:343-429 | the image in a fresh frame pops back as the initial context's image, reversed |
| StackFrame.FreshFrameReturnsToCode | src/port.c:321-341 | after the image, a `ret` that pops as many bytes as were written for the address gets exactly the task's entry address and leaves SP just below the three markers |
| StackFrame.FreshFramePopsReturnBytes | src/port.c:326-341 | the entry address bytes pop back in reverse order |
| StackFrame.Place | src/port.c:314-315 | one store at the top-of-stack slot followed by a step down continues a run of writes going down |
| StackFrame.PlaceMarkers | src/port.c:311-319 | 0x11, 0x22 and 0x33 are written going down |
| StackFrame.PlaceReturnAddress | src/port.c:326-341 | the entry address is written low byte, then high byte, then a zero if a third byte is asked for (the source asks for it on every extended part) |
| StackFrame.PlaceStatus | src/port.c:343-363 | R0 = 0, SREG = 0x80, on the extended parts two zero bytes, then R1 = 0 |
| StackFrame.PlacePlaceholders | src/port.c:364-407 | each register of the run gets its placeholder, in order |
| StackFrame.PlaceParameter | src/port.c:409-416 | the parameter's low byte goes in the R24 slot and its high byte in the R25 slot |
| StackFrame.PlaceRegisters | src/port.c:364-429 | R2..R31 are written as r2..r31 of the initial context |
| StackFrame.InitialContext | src/port.c:347-429 | a new task's context has r0 = r1 = 0, the parameter in r25:r24, SREG = 0x80 (interrupts enabled), and RAMPZ = EIND = 0 |
| StackFrame.PlaceImage | src/port.c:343-429 | the register part of the frame is exactly the image Save would push for the initial context |
| StackFrame.InitialiseStack | src/port.c:307-434 | the builder writes exactly `InitialFrame` below the top and returns the slot just below it |
| TickTimer.CompareValue | src/port.c:521-527 | the compare value fits in `uint32_t` |
| TickTimer.CompareValuePeriod | src/port.c:521-527 | when clock/rate/64 is at least 1, (value+1) periods of 64 cycles fit in one tick with less than one period to spare. When it is 0, the `-= 1` wraps to 2^32-1 |
| TickTimer.CompareMatch | src/port.c:521-527 | the in-place `/=`, `/=`, `-=` on `ulCompareMatch` compute `CompareValue` |
| TickTimer.CompareValueFor16MHz | src/port.c:521-527 | at 16 MHz and 1000 Hz the compare value is 249: 250 counts of 64 cycles are exactly one tick |
| TickTimer.OrSetsBits | src/port.c:536 | `reg \|= mask` sets the mask's bits and keeps every other bit |
| TickTimer.Timer2SetupSetsOnlyItsBits | src/port.c:529-546 | OCR2A gets the low byte of the compare value. TCCR2A gains only 0x02, TCCR2B only 0x04 and TIMSK2 only 0x02 |
| TickTimer.Timer2SetupKeepsOthers | src/port.c:513-547 | timer 2 set-up leaves every other I/O register alone |
| TickTimer.Timer3SetupSetsOnlyItsBits | src/port.c:570-586 | OCR3AH:OCR3AL hold the low 16 bits of the compare value. TCCR3B is assigned 0x0B, and TIMSK3 gains only 0x02 |
| TickTimer.HighLowBytes | src/port.c:572-576 | the high byte (after `>>= 8`) and the low byte make up the value's low 16 bits |
| TickTimer.Timer3SetupKeepsOthers | src/port.c:554-587 | timer 3 set-up leaves every other I/O register alone |
| TickTimer.Timer3ControlValue | src/port.c:579 | CTC \| clock/64 for timer 3 is 0x0B |
| TickTimer.IoSpace.Write | src/port.c:532 | a register write changes that register alone and is logged |
| TickTimer.SetupWatchdog | src/port.c:501-506 | one write of the control word to WDTCSR |
| TickTimer.SetupTimer2 | src/port.c:513-547 | the I/O space becomes `Timer2Setup` of the old one, written in the order OCR2A, TCCR2A, TCCR2B, TIMSK2 |
| TickTimer.SetupTimer3 | src/port.c:554-587 | the I/O space becomes `Timer3Setup` of the old one, written in the order OCR3AH, OCR3AL, TCCR3B, TIMSK3 (high byte first) |
| TickTimer.WatchdogInterruptAtShortestTimeout | src/port.c:503-505 | the control word is 0x40: WDIE set, WDE and WDP2..0 clear; nothing else changes |
| TickTimer.WatchdogControlValue | src/port.c:505 | the OR of the five shifted terms is 0x40 |
| TickTimer.SetupTimerInterrupt | src/port.c:496-589 | the set-up compiled in for the chosen source, with its register effects and its write order |
| Port.Kernel.TaskIncrementTick | src/port.c:486 | the port's call into the tick increment; the answer is the core's, and the call is recorded |
| Port.Kernel.TaskSwitchContext | src/port.c:469 | the core's choice becomes pxCurrentTCB, and the call is recorded |
| Port.Resume | src/port.c:470-472 | restoring from a control block and then `ret` leaves SP just above the image and the return address, and leaves RAMPZ and EIND alone on the parts without them |
| Port.ResumeAfterSaveReturnsToCaller | src/port.c:466-473 | a task resumed from the frame its own Save left carries on as if its call had returned. It has the same context, SP just above the return address and PC at that address |
| Port.ResumeReadsOnlyTheFrame | src/port.c:202-292 | resuming reads only the control block's SP bytes and the image and return address above it |
| Port.TaskResumesWhereItLeftOff | src/port.c:466-473 | task A saves, B runs and saves into its own block, and A resumes as if its call had returned. This needs the frames and control blocks to be disjoint |
| Port.OtherSaveKeepsResume | src/port.c:148-191 | a Save by one task does not change how another task resumes |
| Port.RestoredContextKeepsOnlyAddressing | src/port.c:251-292 | the restored context depends on the state before Restore only through RAMPZ and EIND |
| Port.ResumeCurrent | src/port.c:470-472 | Restore then `ret` leaves context, SP and PC as `Resume` of the current control block |
| Port.PortYield | src/port.c:466-473 | vPortYield saves the running task and calls the switch once. It then resumes the task the core picked |
| Port.SwitchIfRequired | src/port.c:486-489 | the switch is called exactly when the increment reported it due |
| Port.PortYieldFromTick | src/port.c:483-493 | it saves and increments the tick, switches only if a switch is due, and resumes whichever task is then current |
| Port.TickIsr | src/port.c:592-661 | with preemption the tick ISR is vPortYieldFromTick; without it, it only increments the tick and the processor state is unchanged |
| Port.EveryTickIncrementsOnce | src/port.c:592-661 | over any run of ticks the tick is incremented exactly once per tick |
| Port.CooperativeTickNeverSwitches | src/port.c:628-661 | without preemption the tick never switches context |
| Port.PreemptiveTickSwitchesWhenDue | src/port.c:483-493 | with preemption the tick switches exactly as often as the core reports a switch due |
| Port.TickSwitchFollowsIncrement | src/port.c:486-489 | every switch in a tick trace comes right after an increment |
| Port.StartScheduler | src/port.c:437-451 | it sets up the tick source, then restores and enters the current task |
| Port.SetTopOfStack | src/port.c:433 | the builder's result is stored low byte first as the control block's stack pointer |
| Port.FreshFrameResume | src/port.c:437-447 | resuming a fresh frame whose entry address is as wide as the part's return address enters the task's code. It does so with the initial context and SP just below the markers |
| Port.SourceFrameMissesEntry | src/port.c:336-341 | the frame as written on an ATmega640, 1280 or 1281 (third byte written, two popped) resumes at the high byte of the code address, and at the code only when that address is 0. SP ends one byte below the markers |
| Port.CreateTask | src/port.c:307-434 | memory becomes `WithFreshFrame`, with a third address byte exactly on the parts with a 22-bit PC (the corrected builder, see Findings) |
| Port.StartFirstTask | src/port.c:437-451 | creating a task and starting the scheduler enters the task's code. The parameter is in r25:r24, r1 is zero, SREG = 0x80, RAMPZ/EIND are zero on the extended parts, and the tick registers are set up |

## Findings

| source | as written | input that shows it | evidently intended | confidence | as-written member | corrected member |
|---|---|---|---|---|---|---|
| src/port.c:336-341 | the builder writes a third, zero byte above the task's entry address on all five parts with RAMPZ and EIND | an ATmega640, 1280 or 1281, whose program counter is 16 bits so that `ret` pops two bytes, and a task whose code address is 256 or more | the third byte only on the parts with a 22-bit program counter (ATmega2560 and 2561), so that the first `ret` into the task lands on its code | not executed | Port.SourceFrameMissesEntry | Port.FreshFrameResume, Port.CreateTask |

## Left out

- The application hooks, the static memory getters, `vPortEndScheduler`
  and the board LED code are not part of this model: they do not take part
  in context switching or the tick.
- The scheduler core (`xTaskIncrementTick`, `vTaskSwitchContext`) is outside
  the port. Its answers (whether a switch is due, which task is next) are
  parameters of `Port.Kernel`.
- The registers `vTaskSwitchContext` clobbers are not modelled. The model
  treats it as changing `pxCurrentTCB` only, and Restore overwrites every
  register anyway.
- Interrupt latching, `reti`, the `naked`/`signal` attributes and the
  hardware's automatic disabling of interrupts on entry are not modelled.
  The ISR return after `vPortYieldFromTick` is therefore not modelled either.
- Port.TickIsr: without preemption, the ISR's compiler-generated register
  save and restore is taken as preserving the processor state
  (`unchanged(cpu)`), because the compiler's code is not visible. The bytes
  that the interrupt entry and that prologue push below SP are not
  modelled either. So the clause that all of memory is unchanged holds for
  the model; on the hardware it holds only for the bytes above SP.
- `xPortStartScheduler`'s `return pdTRUE` is unreachable after `ret` and is
  not modelled.
- The register file being memory-mapped at addresses 0..31 is not modelled.
  Registers and data memory are separate.
- `pxCurrentTCB` is assumed below 0xFFFF so that the control block's two
  stack-pointer bytes do not wrap around the address space.
- The 30 register pushes and 30 register pops are loops over the register
  number, not 30 separate instructions. Each iteration performs the same
  instruction with the same effect.
- Of the instructions' side effects on SREG, only those of `cli` and `clr`
  are modelled. No other instruction in the sequences changes SREG.
- ContextSwitch.LoadStackPointer: does not state where X points afterwards
  or that r0..r25 and r30..r31 are untouched. Restore pops over r26..r29
  straight afterwards, so nothing depends on it.
- TickTimer.CompareMatch: `clock` and `rate` are required to fit in
  `uint32_t`, and `rate` to be non-zero. In the source they are the
  constants `F_CPU` and `configTICK_RATE_HZ`, which meet both.
- TickTimer.WatchdogInterruptAtShortestTimeout: WDTCSR's timed-change
  sequence and the watchdog's timeout frequency are hardware behaviour and
  are not modelled.
- The stack-overflow check and `portmacro.h` (the critical-section macros
  and `portYIELD`) are not part of this model.
- Three source behaviours are modelled as written:
  - When `clock / rate` is below 64, the compare value wraps to 2^32 - 1
    (`TickTimer.CompareValuePeriod`). Timer 2 then keeps only its low byte.
  - The builder's comments label the two extended-addressing bytes EIND
    then RAMPZ, while Save pushes RAMPZ then EIND. Both bytes are zero in a
    fresh frame, so the order does not matter there.
  - The watchdog tick rate `1000 / 15` truncates to 66 Hz.
