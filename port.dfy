// The scheduler-facing entry points of the port: the manual yield, the
// yield from the tick, the preemptive and cooperative tick interrupts and
// the start of the first task.  The scheduler core (xTaskIncrementTick and
// vTaskSwitchContext) is outside the port; it is modelled as a `Kernel`
// object that records the calls made into it and whose decisions (whether
// a switch is due, which task runs next) are inputs.

module Port {
  import opened Avr
  import opened ContextSwitch
  import opened StackFrame
  import opened TickTimer
  import opened Config

  /** A call from the port into the scheduler core. */
  datatype KernelCall = IncrementTick | SwitchContext

  /** The scheduler core, seen from the port. */
  class Kernel {
    /** Every call the port has made into the core, oldest first. */
    var calls: seq<KernelCall>

    constructor ()
      ensures calls == []
    {
      calls := [];
    }

    /** xTaskIncrementTick: `due` is the core's answer, whether a context
        switch is now required. */
    method TaskIncrementTick(due: bool) returns (switchRequired: bool)
      modifies this
      ensures switchRequired == due && calls == old(calls) + [IncrementTick]
    {
      calls := calls + [IncrementTick];
      switchRequired := due;
    }

    /** vTaskSwitchContext: `next` is the control block of the task the core
        picks; pxCurrentTCB is made to point at it. */
    method TaskSwitchContext(cpu: Cpu, next: int)
      requires cpu.Valid() && 0 <= next < MemorySize - 1
      modifies this, cpu`currentTcb
      ensures cpu.Valid() && cpu.currentTcb == next
      ensures calls == old(calls) + [SwitchContext]
    {
      calls := calls + [SwitchContext];
      cpu.currentTcb := next;
    }
  }

  /** Where a task is when it runs again: its restored context, and the
      stack pointer and program counter after the final `ret`. */
  datatype Resumption = Resumption(ctx: Context, sp: int, pc: int)

  /** Restore from the control block at `tcb` followed by `ret`: the image
      is popped, then the return address above it. */
  function Resume(mem: seq<Byte>, tcb: int, extended: bool, threeBytePc: bool, outer: Context): (r: Resumption)
    requires |mem| == MemorySize && 0 <= tcb < MemorySize - 1 && Resumable(mem, tcb, extended, threeBytePc)
    ensures |r.ctx.r| == RegisterCount
    ensures r.sp == StoredSp(mem, tcb) + ImageSize(extended) + ReturnSize(threeBytePc) < MemorySize
    ensures !extended ==> r.ctx.rampz == outer.rampz && r.ctx.eind == outer.eind
  {
    var s := StoredSp(mem, tcb) + ImageSize(extended);
    Resumption(RestoredContext(mem, tcb, extended, outer), s + ReturnSize(threeBytePc),
               ReturnAddress(PopBytes(mem, s, ReturnSize(threeBytePc))))
  }

  /** A task that saves its context and is then resumed from its own control
      block carries on exactly as if the call that saved it had returned
      normally: the same registers, SREG, RAMPZ and EIND, the stack pointer
      just above the caller's return address, and the program counter at
      that return address. */
  lemma {:induction false} ResumeAfterSaveReturnsToCaller(mem: seq<Byte>, sp: int, tcb: int, c: Context,
                                                          extended: bool, threeBytePc: bool)
    requires |mem| == MemorySize && |c.r| == RegisterCount
    requires ImageSize(extended) <= sp && sp + ReturnSize(threeBytePc) < MemorySize && 0 <= tcb < MemorySize - 1
    requires ClearOfWindow(tcb, sp + ReturnSize(threeBytePc), ImageSize(extended) + ReturnSize(threeBytePc))
    ensures var m := SavedMemory(mem, sp, tcb, c, extended);
            && Resumable(m, tcb, extended, threeBytePc)
            && Resume(m, tcb, extended, threeBytePc, c)
               == Resumption(c, sp + ReturnSize(threeBytePc), ReturnAddress(PopBytes(mem, sp, ReturnSize(threeBytePc))))
  {
    var n, k := ImageSize(extended), ReturnSize(threeBytePc);
    var m := SavedMemory(mem, sp, tcb, c, extended);
    SaveThenRestoreIsIdentity(mem, sp, tcb, c, extended);
    SavedMemoryElsewhere(mem, sp, tcb, c, extended);
    PopBytesAgree(m, mem, sp, k);
  }

  /** Resuming a task reads only its control block's stack-pointer bytes
      and the image and return address above that stack pointer: memory that
      agrees there resumes the task identically. */
  lemma ResumeReadsOnlyTheFrame(m: seq<Byte>, m': seq<Byte>, tcb: int, extended: bool, threeBytePc: bool,
                                   outer: Context)
    requires |m| == MemorySize && |m'| == MemorySize && 0 <= tcb < MemorySize - 1 && Resumable(m, tcb, extended, threeBytePc)
    requires m'[tcb] == m[tcb] && m'[tcb + 1] == m[tcb + 1]
    requires forall x :: StoredSp(m, tcb) < x <= StoredSp(m, tcb) + ImageSize(extended) + ReturnSize(threeBytePc) ==>
               m'[x] == m[x]
    ensures Resumable(m', tcb, extended, threeBytePc) && Resume(m', tcb, extended, threeBytePc, outer) == Resume(m, tcb, extended, threeBytePc, outer)
  {
    var s, n := StoredSp(m, tcb), ImageSize(extended);
    assert StoredSp(m', tcb) == s;
    PopBytesAgree(m', m, s, n);
    PopBytesAgree(m', m, s + n, ReturnSize(threeBytePc));
  }

  /** Two tasks taking turns: task A saves its context into its control
      block `a`, task B is resumed and runs (changing anything but A's frame
      and A's control block), then B saves its context into its own control
      block `b` and A is resumed.  A carries on exactly as if its call had
      returned.  This needs B's stack, both control blocks and A's frame to
      be kept apart. */
  lemma {:induction false} TaskResumesWhereItLeftOff(mem: seq<Byte>, spA: int, a: int, cA: Context,
                                                     between: seq<Byte>, spB: int, b: int, cB: Context,
                                                     extended: bool, threeBytePc: bool)
    requires |mem| == MemorySize && |between| == MemorySize && |cA.r| == RegisterCount && |cB.r| == RegisterCount
    requires ImageSize(extended) <= spA && spA + ReturnSize(threeBytePc) < MemorySize && 0 <= a < MemorySize - 1
    requires ImageSize(extended) <= spB < MemorySize && 0 <= b < MemorySize - 1
    requires ClearOfWindow(a, spA + ReturnSize(threeBytePc), ImageSize(extended) + ReturnSize(threeBytePc))
    requires forall x :: (x == a || x == a + 1 || spA - ImageSize(extended) < x <= spA + ReturnSize(threeBytePc)) ==>
               between[x] == SavedMemory(mem, spA, a, cA, extended)[x]
    requires a + 1 < b || b + 1 < a
    requires ClearOfWindow(a, spB, ImageSize(extended))
    requires ClearOfWindow(b, spA + ReturnSize(threeBytePc), ImageSize(extended) + ReturnSize(threeBytePc))
    requires spB <= spA - ImageSize(extended) || spA + ReturnSize(threeBytePc) <= spB - ImageSize(extended)
    ensures var m := SavedMemory(between, spB, b, cB, extended);
            && Resumable(m, a, extended, threeBytePc)
            && Resume(m, a, extended, threeBytePc, cA)
               == Resumption(cA, spA + ReturnSize(threeBytePc), ReturnAddress(PopBytes(mem, spA, ReturnSize(threeBytePc))))
  {
    var n, k := ImageSize(extended), ReturnSize(threeBytePc);
    var m1 := SavedMemory(mem, spA, a, cA, extended);
    ResumeAfterSaveReturnsToCaller(mem, spA, a, cA, extended, threeBytePc);
    assert StoredSp(m1, a) == spA - n;
    ResumeReadsOnlyTheFrame(m1, between, a, extended, threeBytePc, cA);
    assert StoredSp(between, a) == spA - n;
    OtherSaveKeepsResume(between, spB, b, cB, extended, threeBytePc, a, cA);
  }

  /** Save by one task leaves another task's resumption as it was. */
  lemma OtherSaveKeepsResume(mem: seq<Byte>, sp: int, tcb: int, c: Context, extended: bool,
                             threeBytePc: bool, other: int, outer: Context)
    requires |mem| == MemorySize && |c.r| == RegisterCount
    requires ImageSize(extended) <= sp < MemorySize && 0 <= tcb < MemorySize - 1
    requires 0 <= other < MemorySize - 1 && Resumable(mem, other, extended, threeBytePc)
    requires other + 1 < tcb || tcb + 1 < other
    requires ClearOfWindow(other, sp, ImageSize(extended))
    requires ClearOfWindow(tcb, StoredSp(mem, other) + ImageSize(extended) + ReturnSize(threeBytePc),
                           ImageSize(extended) + ReturnSize(threeBytePc))
    requires sp <= StoredSp(mem, other) || StoredSp(mem, other) + ImageSize(extended) + ReturnSize(threeBytePc) <= sp - ImageSize(extended)
    ensures var m := SavedMemory(mem, sp, tcb, c, extended);
            Resumable(m, other, extended, threeBytePc) && Resume(m, other, extended, threeBytePc, outer) == Resume(mem, other, extended, threeBytePc, outer)
  {
    SaveKeepsOtherTasksFrozen(mem, sp, tcb, c, extended, threeBytePc, other);
    ResumeReadsOnlyTheFrame(mem, SavedMemory(mem, sp, tcb, c, extended), other, extended, threeBytePc, outer);
  }

  /** The context Restore rebuilds depends on the processor state before it
      only through RAMPZ and EIND, which the non-extended parts keep. */
  lemma RestoredContextKeepsOnlyAddressing(mem: seq<Byte>, tcb: int, extended: bool, outer: Context, outer': Context)
    requires |mem| == MemorySize && 0 <= tcb < MemorySize - 1
    requires StoredSp(mem, tcb) + ImageSize(extended) < MemorySize
    requires outer.rampz == outer'.rampz && outer.eind == outer'.eind
    ensures RestoredContext(mem, tcb, extended, outer) == RestoredContext(mem, tcb, extended, outer')
  {
  }

  /** portRESTORE_CONTEXT then `ret`, the common tail of vPortYield,
      vPortYieldFromTick and xPortStartScheduler. */
  method ResumeCurrent(cpu: Cpu, ghost outer: Context)
    requires cpu.Valid() && Resumable(cpu.ram[..], cpu.currentTcb, cpu.extended, cpu.threeBytePc)
    requires outer.rampz == cpu.rampz && outer.eind == cpu.eind
    modifies cpu
    ensures cpu.Valid() && cpu.currentTcb == old(cpu.currentTcb)
    ensures Resumption(cpu.Ctx(), cpu.sp, cpu.pc) == Resume(cpu.ram[..], cpu.currentTcb, cpu.extended, cpu.threeBytePc, outer)
  {
    ghost var mem, tcb := cpu.ram[..], cpu.currentTcb;
    ghost var s, k := StoredSp(mem, tcb) + ImageSize(cpu.extended), ReturnSize(cpu.threeBytePc);
    RestoredContextKeepsOnlyAddressing(mem, tcb, cpu.extended, cpu.Ctx(), outer);
    RestoreContext(cpu);
    ghost var ctx := cpu.Ctx();
    assert ctx == RestoredContext(mem, tcb, cpu.extended, outer);
    assert cpu.sp == s && cpu.ram[..] == mem;
    cpu.Ret();
    assert cpu.Ctx() == ctx && cpu.sp == s + k;
    assert cpu.pc == ReturnAddress(PopBytes(mem, s, k));
  }

  /** vPortYield: save the running task, let the core pick the next one,
      restore it and return into it.  `next` is the core's choice. */
  method PortYield(cpu: Cpu, kernel: Kernel, next: int)
    requires cpu.Valid() && ImageSize(cpu.extended) <= cpu.sp && 0 <= next < MemorySize - 1
    requires Resumable(SavedMemory(cpu.ram[..], cpu.sp, cpu.currentTcb, cpu.Ctx(), cpu.extended), next,
                       cpu.extended, cpu.threeBytePc)
    modifies cpu, cpu.ram, kernel
    ensures cpu.Valid() && cpu.currentTcb == next
    ensures kernel.calls == old(kernel.calls) + [SwitchContext]
    ensures cpu.ram[..] == SavedMemory(old(cpu.ram[..]), old(cpu.sp), old(cpu.currentTcb), old(cpu.Ctx()), cpu.extended)
    ensures Resumption(cpu.Ctx(), cpu.sp, cpu.pc) == Resume(cpu.ram[..], next, cpu.extended, cpu.threeBytePc, old(cpu.Ctx()))
  {
    ghost var outer := cpu.Ctx();
    SaveContext(cpu);
    kernel.TaskSwitchContext(cpu, next);
    ResumeCurrent(cpu, outer);
  }

  /** The calls vPortYieldFromTick makes into the core: one tick increment,
      then a switch exactly when the increment reports one is due. */
  function YieldFromTickCalls(due: bool): seq<KernelCall>
  {
    [IncrementTick] + if due then [SwitchContext] else []
  }

  /** The conditional call of vPortYieldFromTick, once the tick increment
      has answered: the core switches context only when it reported that a
      switch is due. */
  method SwitchIfRequired(cpu: Cpu, kernel: Kernel, switchRequired: bool, next: int)
    requires cpu.Valid() && 0 <= next < MemorySize - 1
    modifies kernel, cpu`currentTcb
    ensures cpu.Valid() && cpu.currentTcb == if switchRequired then next else old(cpu.currentTcb)
    ensures kernel.calls == old(kernel.calls) + if switchRequired then [SwitchContext] else []
  {
    if switchRequired {
      kernel.TaskSwitchContext(cpu, next);
    }
  }

  /** vPortYieldFromTick: save the running task, increment the tick, switch
      only if the core says so, restore whichever task is now current and
      return into it. */
  method PortYieldFromTick(cpu: Cpu, kernel: Kernel, due: bool, next: int)
    requires cpu.Valid() && ImageSize(cpu.extended) <= cpu.sp && 0 <= next < MemorySize - 1
    requires Resumable(SavedMemory(cpu.ram[..], cpu.sp, cpu.currentTcb, cpu.Ctx(), cpu.extended),
                       if due then next else cpu.currentTcb, cpu.extended, cpu.threeBytePc)
    modifies cpu, cpu.ram, kernel
    ensures cpu.Valid() && cpu.currentTcb == if due then next else old(cpu.currentTcb)
    ensures kernel.calls == old(kernel.calls) + YieldFromTickCalls(due)
    ensures cpu.ram[..] == SavedMemory(old(cpu.ram[..]), old(cpu.sp), old(cpu.currentTcb), old(cpu.Ctx()), cpu.extended)
    ensures Resumption(cpu.Ctx(), cpu.sp, cpu.pc) == Resume(cpu.ram[..], cpu.currentTcb, cpu.extended, cpu.threeBytePc, old(cpu.Ctx()))
  {
    ghost var before, outer := kernel.calls, cpu.Ctx();
    SaveContext(cpu);
    var switchRequired := kernel.TaskIncrementTick(due);
    SwitchIfRequired(cpu, kernel, switchRequired, next);
    assert kernel.calls == before + YieldFromTickCalls(due);
    ResumeCurrent(cpu, outer);
  }

  /** The calls one tick interrupt makes into the core: with preemption
      those of vPortYieldFromTick, without it a tick increment only. */
  function TickCalls(preemptive: bool, due: bool): seq<KernelCall>
  {
    if preemptive then YieldFromTickCalls(due) else [IncrementTick]
  }

  /** The tick interrupt (the watchdog, timer 2 or timer 3 vector, whichever
      is compiled in).  `preemptive` is configUSE_PREEMPTION == 1.  With
      preemption it is vPortYieldFromTick; without, it only increments the
      tick, and the registers the compiler saves around that call are
      restored by the compiler, so the processor state is as before. */
  method TickIsr(cpu: Cpu, kernel: Kernel, preemptive: bool, due: bool, next: int)
    requires cpu.Valid() && 0 <= next < MemorySize - 1
    requires preemptive ==> ImageSize(cpu.extended) <= cpu.sp
    requires preemptive ==> Resumable(SavedMemory(cpu.ram[..], cpu.sp, cpu.currentTcb, cpu.Ctx(), cpu.extended),
                                      if due then next else cpu.currentTcb, cpu.extended, cpu.threeBytePc)
    modifies cpu, cpu.ram, kernel
    ensures cpu.Valid() && kernel.calls == old(kernel.calls) + TickCalls(preemptive, due)
    ensures !preemptive ==> unchanged(cpu) && cpu.ram[..] == old(cpu.ram[..])
    ensures preemptive ==> cpu.currentTcb == if due then next else old(cpu.currentTcb)
    ensures preemptive ==>
              && cpu.ram[..] == SavedMemory(old(cpu.ram[..]), old(cpu.sp), old(cpu.currentTcb), old(cpu.Ctx()), cpu.extended)
              && Resumption(cpu.Ctx(), cpu.sp, cpu.pc) == Resume(cpu.ram[..], cpu.currentTcb, cpu.extended, cpu.threeBytePc, old(cpu.Ctx()))
  {
    if preemptive {
      PortYieldFromTick(cpu, kernel, due, next);
    } else {
      var _ := kernel.TaskIncrementTick(due);
    }
  }

  /** The calls a run of tick interrupts makes, one per entry of `dues`
      (the core's answers, in order). */
  function TickTrace(preemptive: bool, dues: seq<bool>): seq<KernelCall>
  {
    if |dues| == 0 then [] else TickTrace(preemptive, dues[..|dues| - 1]) + TickCalls(preemptive, dues[|dues| - 1])
  }

  /** How often `k` occurs in `calls`. */
  function Count(calls: seq<KernelCall>, k: KernelCall): nat
  {
    if |calls| == 0 then 0 else Count(calls[..|calls| - 1], k) + if calls[|calls| - 1] == k then 1 else 0
  }

  /** How many of `dues` are true. */
  function Trues(dues: seq<bool>): nat
  {
    if |dues| == 0 then 0 else Trues(dues[..|dues| - 1]) + if dues[|dues| - 1] then 1 else 0
  }

  lemma {:induction false} CountAppend(a: seq<KernelCall>, b: seq<KernelCall>, k: KernelCall)
    ensures Count(a + b, k) == Count(a, k) + Count(b, k)
    decreases |b|
  {
    if |b| != 0 {
      assert (a + b)[..|a + b| - 1] == a + b[..|b| - 1];
      CountAppend(a, b[..|b| - 1], k);
    } else {
      assert a + b == a;
    }
  }

  /** Every tick interrupt increments the tick exactly once, with or without
      preemption. */
  lemma {:induction false} EveryTickIncrementsOnce(preemptive: bool, dues: seq<bool>)
    ensures Count(TickTrace(preemptive, dues), IncrementTick) == |dues|
  {
    if |dues| != 0 {
      var last := dues[|dues| - 1];
      EveryTickIncrementsOnce(preemptive, dues[..|dues| - 1]);
      CountAppend(TickTrace(preemptive, dues[..|dues| - 1]), TickCalls(preemptive, last), IncrementTick);
      if preemptive {
        CountAppend([IncrementTick], if last then [SwitchContext] else [], IncrementTick);
      }
    }
  }

  /** Without preemption the tick never switches context: only an explicit
      taskYIELD does. */
  lemma {:induction false} CooperativeTickNeverSwitches(dues: seq<bool>)
    ensures Count(TickTrace(false, dues), SwitchContext) == 0
  {
    if |dues| != 0 {
      CooperativeTickNeverSwitches(dues[..|dues| - 1]);
      CountAppend(TickTrace(false, dues[..|dues| - 1]), [IncrementTick], SwitchContext);
    }
  }

  /** With preemption the tick switches context exactly as often as the core
      reports that a switch is due. */
  lemma {:induction false} PreemptiveTickSwitchesWhenDue(dues: seq<bool>)
    ensures Count(TickTrace(true, dues), SwitchContext) == Trues(dues)
  {
    if |dues| != 0 {
      var last := dues[|dues| - 1];
      PreemptiveTickSwitchesWhenDue(dues[..|dues| - 1]);
      CountAppend(TickTrace(true, dues[..|dues| - 1]), YieldFromTickCalls(last), SwitchContext);
      CountAppend([IncrementTick], if last then [SwitchContext] else [], SwitchContext);
    }
  }

  /** In a run of tick interrupts every context switch comes straight after
      a tick increment: the tick never switches without counting first. */
  lemma {:induction false} TickSwitchFollowsIncrement(preemptive: bool, dues: seq<bool>)
    ensures var t := TickTrace(preemptive, dues);
            && (|t| > 0 ==> t[0] == IncrementTick)
            && forall i :: 0 < i < |t| && t[i] == SwitchContext ==> t[i - 1] == IncrementTick
  {
    if |dues| != 0 {
      var prefix := TickTrace(preemptive, dues[..|dues| - 1]);
      var step := TickCalls(preemptive, dues[|dues| - 1]);
      TickSwitchFollowsIncrement(preemptive, dues[..|dues| - 1]);
      var t := prefix + step;
      forall i | 0 < i < |t| && t[i] == SwitchContext
        ensures t[i - 1] == IncrementTick
      {
        if i >= |prefix| {
          assert step[i - |prefix|] == SwitchContext;
        }
      }
    }
  }

  /** xPortStartScheduler: set up the tick interrupt, then restore the
      context of the task pxCurrentTCB points at and `ret` into it. */
  method StartScheduler(cpu: Cpu, io: IoSpace, source: TickSource, clock: nat, rate: nat)
    requires cpu.Valid() && Resumable(cpu.ram[..], cpu.currentTcb, cpu.extended, cpu.threeBytePc)
    requires io.Valid() && SetupArguments(source, clock, rate)
    modifies cpu, io
    ensures cpu.Valid() && cpu.currentTcb == old(cpu.currentTcb)
    ensures io.Valid() && io.reg == TickRegisters(old(io.reg), source, clock, rate)
    ensures io.written == old(io.written) + TickWrites(source)
    ensures Resumption(cpu.Ctx(), cpu.sp, cpu.pc) == Resume(cpu.ram[..], cpu.currentTcb, cpu.extended, cpu.threeBytePc, old(cpu.Ctx()))
  {
    SetupTimerInterrupt(io, source, clock, rate);
    ResumeCurrent(cpu, cpu.Ctx());
  }

  /** Stores `top` as the stack pointer of the control block at `tcb`, low
      byte first: what task creation does with pxPortInitialiseStack's
      result (`pxTopOfStack` is the first member of the control block). */
  method SetTopOfStack(cpu: Cpu, tcb: int, top: Word)
    requires cpu.Valid() && 0 <= tcb < MemorySize - 1
    modifies cpu.ram
    ensures cpu.ram[..] == StoreSp(old(cpu.ram[..]), tcb, top)
  {
    cpu.ram[tcb] := Lo(top);
    cpu.ram[tcb + 1] := Hi(top);
  }

  /** Resuming a task whose control block points at a freshly built frame
      enters its code: the registers of the initial context, SREG with only
      the interrupt flag, RAMPZ and EIND zero on the extended parts (left
      alone on the others), and the stack pointer just below the three
      markers.  This holds when the frame's entry address is as wide as the
      part's return address, which is how CreateTask builds it. */
  lemma FreshFrameResume(mem: seq<Byte>, top: int, code: Word, param: Word, extended: bool, threeBytePc: bool,
                         tcb: int, outer: Context)
    requires |mem| == MemorySize && FrameSize(extended, threeBytePc) <= top < MemorySize
    requires 0 <= tcb < MemorySize - 1 && ClearOfWindow(tcb, top, FrameSize(extended, threeBytePc))
    ensures var m := WithFreshFrame(mem, top, code, param, extended, threeBytePc, tcb);
            && Resumable(m, tcb, extended, threeBytePc)
            && Resume(m, tcb, extended, threeBytePc, outer)
               == Resumption(Context(InitialContext(param).r, SregI,
                                     if extended then 0 else outer.rampz, if extended then 0 else outer.eind),
                             top - |Markers|, code)
  {
    FreshFrameRestoresInitialContext(mem, top, code, param, extended, threeBytePc, tcb, outer);
    FreshFrameReturnsToCode(mem, top, code, param, extended, threeBytePc, tcb);
  }

  /** The frame as pxPortInitialiseStack writes it on an ATmega640, 1280 or
      1281: the source adds the third, zero address byte on every extended
      part, but these three have a 16-bit program counter and their `ret`
      pops only two bytes.  Resuming the new task jumps to the high byte of
      its code address (the code itself only when that address is zero),
      and leaves the stack pointer one byte short of the markers. */
  lemma SourceFrameMissesEntry(mem: seq<Byte>, top: int, code: Word, param: Word, tcb: int, outer: Context)
    requires |mem| == MemorySize && FrameSize(true, true) <= top < MemorySize
    requires 0 <= tcb < MemorySize - 1 && ClearOfWindow(tcb, top, FrameSize(true, true))
    ensures var m := WithFreshFrame(mem, top, code, param, true, true, tcb);
            && Resumable(m, tcb, true, false)
            && Resume(m, tcb, true, false, outer).pc == Hi(code)
            && (Resume(m, tcb, true, false, outer).pc == code <==> code == 0)
            && Resume(m, tcb, true, false, outer).sp == top - |Markers| - 1
  {
    var m := WithFreshFrame(mem, top, code, param, true, true, tcb);
    FreshFrameResume(mem, top, code, param, true, true, tcb, outer);
    var s := StoredSp(m, tcb) + ImageSize(true);
    assert s == top - FrameSize(true, true) + ImageSize(true);
    FreshFramePopsReturnBytes(mem, top, code, param, true, true, tcb);
    var three := PopBytes(m, s, 3);
    assert three == [0, Hi(code), Lo(code)];
    assert PopBytes(m, s, 2) == three[..2];
  }

  /** Task creation as far as the port is concerned: pxPortInitialiseStack
      builds the frame below `top`, with an entry address as wide as the
      part's return address, and its result is stored as the new task's
      stack pointer. */
  method CreateTask(cpu: Cpu, tcb: int, top: int, code: Word, param: Word)
    requires cpu.Valid() && FrameSize(cpu.extended, cpu.threeBytePc) <= top < MemorySize && 0 <= tcb < MemorySize - 1
    modifies cpu.ram
    ensures cpu.ram[..] == WithFreshFrame(old(cpu.ram[..]), top, code, param, cpu.extended, cpu.threeBytePc, tcb)
  {
    var newTop := InitialiseStack(cpu.ram, top, code, param, cpu.extended, cpu.threeBytePc);
    SetTopOfStack(cpu, tcb, newTop);
  }

  /** Creating a task with a fresh frame below `top` and starting the
      scheduler with it as the current task enters the task's code with
      the parameter in r25:r24, r1 zero, SREG enabling interrupts, the other
      registers holding the frame's placeholders, RAMPZ and EIND zero on the
      extended parts, and the stack pointer just below the three markers. */
  method StartFirstTask(cpu: Cpu, io: IoSpace, tcb: int, top: int, code: Word, param: Word,
                        source: TickSource, clock: nat, rate: nat)
    requires cpu.Valid() && FrameSize(cpu.extended, cpu.threeBytePc) <= top < MemorySize && 0 <= tcb < MemorySize - 1
    requires ClearOfWindow(tcb, top, FrameSize(cpu.extended, cpu.threeBytePc))
    requires io.Valid() && SetupArguments(source, clock, rate)
    modifies cpu, cpu.ram, io
    ensures cpu.Valid() && cpu.currentTcb == tcb
    ensures io.reg == TickRegisters(old(io.reg), source, clock, rate)
    ensures cpu.pc == code && cpu.sp == top - |Markers|
    ensures cpu.r == InitialContext(param).r && cpu.sreg == SregI
    ensures WordOf(cpu.r[24], cpu.r[25]) == param && cpu.r[1] == 0
    ensures cpu.extended ==> cpu.rampz == 0 && cpu.eind == 0
  {
    ghost var mem, outer := cpu.ram[..], cpu.Ctx();
    CreateTask(cpu, tcb, top, code, param);
    cpu.currentTcb := tcb;
    FreshFrameResume(mem, top, code, param, cpu.extended, cpu.threeBytePc, tcb, outer);
    assert cpu.Ctx() == outer;
    StartScheduler(cpu, io, source, clock, rate);
  }
}
