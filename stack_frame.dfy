// pxPortInitialiseStack: the frame a new task's stack starts with.  Below
// three marker bytes it holds the task's entry address the way a call would
// have left it, and below that the register image portSAVE_CONTEXT would
// have pushed, with SREG holding only the interrupt-enable flag, r1 zero,
// the task parameter in r25:r24 and recognisable placeholders elsewhere.
// Restoring that image and executing `ret` therefore enters the task, as
// long as the entry address is as wide as the part's return address.

module StackFrame {
  import opened Avr
  import opened ContextSwitch

  /** The three debugging markers written at the top of every new stack. */
  const Markers: seq<Byte> := [0x11, 0x22, 0x33]

  /** Total number of bytes the builder writes: 38 on the parts without
      RAMPZ and EIND, 41 on the five extended parts as the source builds the
      frame, 40 on the ATmega640/1280/1281 once the entry address is sized
      to their 16-bit program counter. */
  function FrameSize(extended: bool, thirdByte: bool): nat
  {
    |Markers| + ReturnSize(thirdByte) + ImageSize(extended)
  }

  /** The entry address in the order the builder writes it going down: low
      byte, high byte, and then a zero third byte when `thirdByte` holds.
      The source writes the third byte on all five extended parts; a call
      leaves one only on the parts whose program counter is 22 bits wide. */
  function ReturnBytes(code: Word, thirdByte: bool): (b: seq<Byte>)
    ensures |b| == ReturnSize(thirdByte)
  {
    [Lo(code), Hi(code)] + (if thirdByte then [0] else [])
  }

  /** The placeholder the builder stores for register `d`: the register's
      number written as if it were hexadecimal (r2 gets 0x02, r10 gets 0x10,
      r31 gets 0x31). */
  function Placeholder(d: nat): (v: Byte)
    requires d < RegisterCount
    ensures v / 16 == d / 10 && v % 16 == d % 10
  {
    (d / 10) * 16 + d % 10
  }

  /** Placeholders for registers `from` up to, not including, `to`. */
  function Placeholders(from: nat, to: nat): (s: seq<Byte>)
    requires from <= to <= RegisterCount
    ensures |s| == to - from && forall i :: 0 <= i < |s| ==> s[i] == Placeholder(from + i)
  {
    seq<Byte>(to - from, i requires 0 <= i < to - from => Placeholder(from + i))
  }

  /** The register context a new task starts with: r0 and r1 zero, the
      parameter in r25:r24, placeholders in the other registers, SREG with
      only the global interrupt flag, RAMPZ and EIND zero. */
  function InitialContext(param: Word): (c: Context)
    ensures |c.r| == RegisterCount
    ensures c.r[0] == 0 && c.r[1] == 0 && WordOf(c.r[24], c.r[25]) == param
    ensures c.sreg == SregI && c.rampz == 0 && c.eind == 0
  {
    SplitJoin(param);
    Context(
      seq<Byte>(RegisterCount, i requires 0 <= i < RegisterCount =>
        if i <= 1 then 0 else if i == 24 then Lo(param) else if i == 25 then Hi(param) else Placeholder(i)),
      SregI, 0, 0)
  }

  /** The bytes pxPortInitialiseStack writes, from the top of the stack
      downward: the markers, the entry address, then exactly the image
      portSAVE_CONTEXT would push for the initial context. */
  function InitialFrame(code: Word, param: Word, extended: bool, thirdByte: bool): (f: seq<Byte>)
    ensures |f| == FrameSize(extended, thirdByte)
  {
    Markers + ReturnBytes(code, thirdByte) + Image(InitialContext(param), extended)
  }

  /** Registers r2..r31 written phase by phase, as the builder does, are
      those of the initial context. */
  lemma RegisterPhasesFormInitialContext(param: Word)
    ensures Placeholders(2, 24) + [Lo(param), Hi(param)] + Placeholders(26, 32) == InitialContext(param).r[2..]
  {
    var rs := InitialContext(param).r[2..];
    var phased := Placeholders(2, 24) + [Lo(param), Hi(param)] + Placeholders(26, 32);
    forall i | 0 <= i < |rs|
      ensures phased[i] == rs[i]
    {
      assert rs[i] == InitialContext(param).r[i + 2];
    }
    assert phased == rs;
  }

  /** The memory after building a frame below `top` and storing the new top
      of stack into the control block at `tcb`, as task creation does. */
  function WithFreshFrame(mem: seq<Byte>, top: int, code: Word, param: Word, extended: bool, thirdByte: bool, tcb: int)
    : (m: seq<Byte>)
    requires |mem| == MemorySize && FrameSize(extended, thirdByte) <= top < MemorySize && 0 <= tcb < MemorySize - 1
    ensures |m| == MemorySize && StoredSp(m, tcb) == top - FrameSize(extended, thirdByte)
  {
    StoreSp(PushBytes(mem, top, InitialFrame(code, param, extended, thirdByte)), tcb, top - FrameSize(extended, thirdByte))
  }

  /** Inside the frame, that memory holds the frame's bytes. */
  lemma FreshFrameBytes(mem: seq<Byte>, top: int, code: Word, param: Word, extended: bool, thirdByte: bool, tcb: int)
    requires |mem| == MemorySize && FrameSize(extended, thirdByte) <= top < MemorySize
    requires 0 <= tcb < MemorySize - 1 && ClearOfWindow(tcb, top, FrameSize(extended, thirdByte))
    ensures forall a :: top - FrameSize(extended, thirdByte) < a <= top ==>
              WithFreshFrame(mem, top, code, param, extended, thirdByte, tcb)[a] == InitialFrame(code, param, extended, thirdByte)[top - a]
  {
    PushBytesAt(mem, top, InitialFrame(code, param, extended, thirdByte));
  }

  /** A task whose control block points at a freshly built frame starts with
      the right registers: portRESTORE_CONTEXT loads r0..r31 and SREG of the
      initial context, so r25:r24 holds the parameter, r1 is zero and SREG
      enables interrupts; on the extended parts RAMPZ and EIND are zero.  This
      needs the two stack-pointer bytes of the control block to lie outside
      the frame. */
  lemma {:induction false} FreshFrameRestoresInitialContext(mem: seq<Byte>, top: int, code: Word, param: Word,
                                                            extended: bool, thirdByte: bool, tcb: int, outer: Context)
    requires |mem| == MemorySize && FrameSize(extended, thirdByte) <= top < MemorySize
    requires 0 <= tcb < MemorySize - 1 && ClearOfWindow(tcb, top, FrameSize(extended, thirdByte))
    ensures var c := RestoredContext(WithFreshFrame(mem, top, code, param, extended, thirdByte, tcb), tcb, extended, outer);
            && c.r == InitialContext(param).r && c.sreg == SregI
            && WordOf(c.r[24], c.r[25]) == param && c.r[1] == 0
            && (extended ==> c.rampz == 0 && c.eind == 0)
  {
    var m, ic := WithFreshFrame(mem, top, code, param, extended, thirdByte, tcb), InitialContext(param);
    FreshFramePopsImage(mem, top, code, param, extended, thirdByte, tcb);
    UnstackInvertsImage(ic, extended, outer);
    var c := RestoredContext(m, tcb, extended, outer);
    assert c == Unstack(Reverse(Image(ic, extended)), extended, outer);
    assert c.r[24] == Lo(param) && c.r[25] == Hi(param);
    SplitJoin(param);
  }

  /** Popping an image's worth of bytes from the new top of stack gives the
      initial context's image back to front. */
  lemma FreshFramePopsImage(mem: seq<Byte>, top: int, code: Word, param: Word, extended: bool, thirdByte: bool, tcb: int)
    requires |mem| == MemorySize && FrameSize(extended, thirdByte) <= top < MemorySize
    requires 0 <= tcb < MemorySize - 1 && ClearOfWindow(tcb, top, FrameSize(extended, thirdByte))
    ensures PopBytes(WithFreshFrame(mem, top, code, param, extended, thirdByte, tcb), top - FrameSize(extended, thirdByte), ImageSize(extended))
            == Reverse(Image(InitialContext(param), extended))
  {
    var pre, img := Markers + ReturnBytes(code, thirdByte), Image(InitialContext(param), extended);
    var sp, below := top - FrameSize(extended, thirdByte), top - |pre|;
    var pushed := PushBytes(PushBytes(mem, top, pre), below, img);
    PushBytesAppend(mem, top, pre, img);
    assert pushed == PushBytes(mem, top, InitialFrame(code, param, extended, thirdByte));
    PopAfterPushMirrors(PushBytes(mem, top, pre), below, img);
    assert sp == below - |img|;
    PopBytesAgree(WithFreshFrame(mem, top, code, param, extended, thirdByte, tcb), pushed, sp, |img|);
  }

  /** After portRESTORE_CONTEXT has popped the image of a fresh frame, the
      stack pointer is just below the entry address.  A `ret` that pops as
      many bytes as the builder wrote for that address (three exactly when
      `thirdByte` holds) gets exactly the task's code address and leaves the
      stack pointer just below the three markers. */
  lemma {:induction false} FreshFrameReturnsToCode(mem: seq<Byte>, top: int, code: Word, param: Word,
                                                   extended: bool, thirdByte: bool, tcb: int)
    requires |mem| == MemorySize && FrameSize(extended, thirdByte) <= top < MemorySize
    requires 0 <= tcb < MemorySize - 1 && ClearOfWindow(tcb, top, FrameSize(extended, thirdByte))
    ensures var m := WithFreshFrame(mem, top, code, param, extended, thirdByte, tcb);
            var s := StoredSp(m, tcb) + ImageSize(extended);
            && s + ReturnSize(thirdByte) == top - |Markers|
            && ReturnAddress(PopBytes(m, s, ReturnSize(thirdByte))) == code
  {
    var m, rb := WithFreshFrame(mem, top, code, param, extended, thirdByte, tcb), ReturnBytes(code, thirdByte);
    var s := StoredSp(m, tcb) + ImageSize(extended);
    FreshFramePopsReturnBytes(mem, top, code, param, extended, thirdByte, tcb);
    var ret := PopBytes(m, s, ReturnSize(thirdByte));
    assert ret[0] == rb[|rb| - 1] && ret[|rb| - 1] == rb[0];
    SplitJoin(code);
  }

  /** Just above the image lie the entry address bytes, which `ret` pops
      back to front. */
  lemma FreshFramePopsReturnBytes(mem: seq<Byte>, top: int, code: Word, param: Word, extended: bool, thirdByte: bool, tcb: int)
    requires |mem| == MemorySize && FrameSize(extended, thirdByte) <= top < MemorySize
    requires 0 <= tcb < MemorySize - 1 && ClearOfWindow(tcb, top, FrameSize(extended, thirdByte))
    ensures PopBytes(WithFreshFrame(mem, top, code, param, extended, thirdByte, tcb), top - FrameSize(extended, thirdByte) + ImageSize(extended),
                     ReturnSize(thirdByte))
            == Reverse(ReturnBytes(code, thirdByte))
  {
    var size, n, k := FrameSize(extended, thirdByte), ImageSize(extended), ReturnSize(thirdByte);
    var m := WithFreshFrame(mem, top, code, param, extended, thirdByte, tcb);
    var f := InitialFrame(code, param, extended, thirdByte);
    FreshFrameBytes(mem, top, code, param, extended, thirdByte, tcb);
    var sp := top - size;
    var ret, rb := PopBytes(m, sp + n, k), ReturnBytes(code, thirdByte);
    forall i | 0 <= i < k
      ensures ret[i] == Reverse(rb)[i]
    {
      assert ret[i] == m[sp + n + 1 + i] == f[size - n - 1 - i];
    }
    assert ret == Reverse(rb);
  }

  /** One store at the top-of-stack slot followed by a step down, as one
      step of a run of such writes that started at `top0` on contents `mem`. */
  method Place(stack: array<Byte>, top: int, v: Byte, ghost mem: seq<Byte>, ghost top0: int, ghost placed: seq<Byte>)
    returns (top': int, ghost placed': seq<Byte>)
    requires 0 <= top < stack.Length && |mem| == stack.Length
    requires |placed| <= top0 < |mem| && top == top0 - |placed|
    requires stack[..] == PushBytes(mem, top0, placed)
    modifies stack
    ensures top' == top - 1 && placed' == placed + [v]
    ensures stack[..] == PushBytes(mem, top0, placed')
  {
    stack[top] := v;
    top' := top - 1;
    PushOneMore(mem, top0, placed, v);
    placed' := placed + [v];
  }

  /** The three marker bytes. */
  method PlaceMarkers(stack: array<Byte>, top: int) returns (top': int)
    requires |Markers| - 1 <= top < stack.Length
    modifies stack
    ensures top' == top - |Markers|
    ensures stack[..] == PushBytes(old(stack[..]), top, Markers)
  {
    ghost var mem, p := stack[..], [];
    top', p := Place(stack, top, 0x11, mem, top, p);
    top', p := Place(stack, top', 0x22, mem, top, p);
    top', p := Place(stack, top', 0x33, mem, top, p);
  }

  /** The entry address, truncated to 16 bits: its low byte, then the low
      byte of the address shifted right by 8, then a zero byte when
      `thirdByte` holds (the source's test is `extended`). */
  method PlaceReturnAddress(stack: array<Byte>, top: int, code: Word, thirdByte: bool) returns (top': int)
    requires ReturnSize(thirdByte) - 1 <= top < stack.Length
    modifies stack
    ensures top' == top - ReturnSize(thirdByte)
    ensures stack[..] == PushBytes(old(stack[..]), top, ReturnBytes(code, thirdByte))
  {
    ghost var mem, p := stack[..], [];
    var address := code;
    top', p := Place(stack, top, Lo(address), mem, top, p);
    address := address / 256;
    top', p := Place(stack, top', Lo(address), mem, top, p);
    if thirdByte {
      top', p := Place(stack, top', 0, mem, top, p);
    }
    assert Lo(code / 256) == Hi(code);
    assert p == ReturnBytes(code, thirdByte);
  }

  /** R0 = 0, SREG = interrupts enabled, on the extended parts EIND = 0 and
      RAMPZ = 0, then R1 = 0. */
  method PlaceStatus(stack: array<Byte>, top: int, param: Word, extended: bool) returns (top': int)
    requires ImageSize(extended) - 31 <= top < stack.Length
    modifies stack
    ensures top' == top - |StatusBytes(InitialContext(param), extended)|
    ensures stack[..] == PushBytes(old(stack[..]), top, StatusBytes(InitialContext(param), extended))
  {
    ghost var mem, p := stack[..], [];
    top', p := Place(stack, top, 0x00, mem, top, p);         // R0
    top', p := Place(stack, top', SregI, mem, top, p);       // portFLAGS_INT_ENABLED
    if extended {
      top', p := Place(stack, top', 0x00, mem, top, p);      // EIND
      top', p := Place(stack, top', 0x00, mem, top, p);      // RAMPZ
    }
    top', p := Place(stack, top', 0x00, mem, top, p);        // R1
    assert p == StatusBytes(InitialContext(param), extended);
  }

  /** The placeholders for R<from> .. R<to - 1>, one register after the other. */
  method PlacePlaceholders(stack: array<Byte>, top: int, from: nat, to: nat) returns (top': int)
    requires from <= to <= RegisterCount && to - from - 1 <= top < stack.Length
    modifies stack
    ensures top' == top - (to - from)
    ensures stack[..] == PushBytes(old(stack[..]), top, Placeholders(from, to))
  {
    ghost var mem, p := stack[..], [];
    top' := top;
    var d := from;
    while d < to
      invariant from <= d <= to && top' == top - (d - from) && p == Placeholders(from, d)
      invariant stack[..] == PushBytes(mem, top, p)
    {
      top', p := Place(stack, top', Placeholder(d), mem, top, p);
      d := d + 1;
    }
  }

  /** The parameter, truncated to 16 bits: its low byte in the R24 slot, then
      the low byte of the parameter shifted right by 8 in the R25 slot. */
  method PlaceParameter(stack: array<Byte>, top: int, param: Word) returns (top': int)
    requires 1 <= top < stack.Length
    modifies stack
    ensures top' == top - 2
    ensures stack[..] == PushBytes(old(stack[..]), top, [Lo(param), Hi(param)])
  {
    ghost var mem, p := stack[..], [];
    var address := param;
    top', p := Place(stack, top, Lo(address), mem, top, p);
    address := address / 256;
    top', p := Place(stack, top', Lo(address), mem, top, p);
    assert Lo(param / 256) == Hi(param);
  }

  /** R2 .. R31: placeholders, except the parameter in R24 and R25. */
  method PlaceRegisters(stack: array<Byte>, top: int, param: Word) returns (top': int)
    requires RegisterCount - 3 <= top < stack.Length
    modifies stack
    ensures top' == top - (RegisterCount - 2)
    ensures stack[..] == PushBytes(old(stack[..]), top, InitialContext(param).r[2..])
  {
    ghost var mem := stack[..];
    var t := PlacePlaceholders(stack, top, 2, 24);            // R2 .. R23
    ghost var m1, t1 := stack[..], t;
    t := PlaceParameter(stack, t, param);                    // R24, R25
    ghost var m2, t2 := stack[..], t;
    t := PlacePlaceholders(stack, t, 26, 32);                // R26 .. R31
    PushBytesInThree(mem, top, Placeholders(2, 24), [Lo(param), Hi(param)], Placeholders(26, 32),
                     t1, t2, m1, m2, stack[..]);
    RegisterPhasesFormInitialContext(param);
    top' := t;
  }

  /** The register image, from R0 down to R31. */
  method PlaceImage(stack: array<Byte>, top: int, param: Word, extended: bool) returns (top': int)
    requires ImageSize(extended) - 1 <= top < stack.Length
    modifies stack
    ensures top' == top - ImageSize(extended)
    ensures stack[..] == PushBytes(old(stack[..]), top, Image(InitialContext(param), extended))
  {
    ghost var mem := stack[..];
    ghost var c := InitialContext(param);
    var t := PlaceStatus(stack, top, param, extended);
    ghost var m1, t1 := stack[..], t;
    t := PlaceRegisters(stack, t, param);
    PushBytesInTwo(mem, top, StatusBytes(c, extended), c.r[2..], t1, m1, stack[..]);
    StatusThenRegisters(c, extended, c.r);
    top' := t;
  }

  /** pxPortInitialiseStack: writes the initial frame below `top` (inclusive)
      and returns the new top of stack, the slot just below the frame.  As
      the source is written, `thirdByte` is `extended`. */
  method InitialiseStack(stack: array<Byte>, top: int, code: Word, param: Word, extended: bool, thirdByte: bool)
    returns (top': int)
    requires FrameSize(extended, thirdByte) - 1 <= top < stack.Length
    modifies stack
    ensures top' == top - FrameSize(extended, thirdByte)
    ensures stack[..] == PushBytes(old(stack[..]), top, InitialFrame(code, param, extended, thirdByte))
  {
    ghost var mem := stack[..];
    var t := PlaceMarkers(stack, top);
    ghost var m1, t1 := stack[..], t;
    t := PlaceReturnAddress(stack, t, code, thirdByte);
    ghost var m2, t2 := stack[..], t;
    t := PlaceImage(stack, t, param, extended);
    PushBytesInThree(mem, top, Markers, ReturnBytes(code, thirdByte), Image(InitialContext(param), extended),
                     t1, t2, m1, m2, stack[..]);
    top' := t;
  }
}
