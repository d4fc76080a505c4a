// portSAVE_CONTEXT and portRESTORE_CONTEXT: the two straight-line sequences
// that move the register file between the running task and its stack.  Save
// pushes r0, SREG, (RAMPZ, EIND on the extended parts), r1..r31 and stores
// the resulting stack pointer into the first two bytes of the running task's
// control block; Restore reads that stack pointer back and pops everything
// in the mirror order.

module ContextSwitch {
  import opened Avr

  /** Bytes Save pushes: 32 registers and SREG, plus RAMPZ and EIND on the
      extended parts. */
  function ImageSize(extended: bool): nat
  {
    if extended then 35 else 33
  }

  /** The register image in the order Save pushes it: r0, SREG, then RAMPZ
      and EIND on the extended parts, then r1..r31. */
  function Image(c: Context, extended: bool): (img: seq<Byte>)
    requires |c.r| == RegisterCount
    ensures |img| == ImageSize(extended)
  {
    [c.r[0], c.sreg] + (if extended then [c.rampz, c.eind] else []) + c.r[1..]
  }

  /** The context Restore rebuilds from the bytes it popped, in pop order:
      r31..r1, then EIND and RAMPZ on the extended parts, then SREG, then r0.
      On the other parts RAMPZ and EIND are not touched and keep the values
      of `outer`. */
  function Unstack(popped: seq<Byte>, extended: bool, outer: Context): (c: Context)
    requires |popped| == ImageSize(extended)
    ensures |c.r| == RegisterCount
    ensures !extended ==> c.rampz == outer.rampz && c.eind == outer.eind
  {
    var n := ImageSize(extended);
    Context(
      seq(RegisterCount, i requires 0 <= i < RegisterCount =>
        if i == 0 then popped[n - 1] else popped[RegisterCount - 1 - i]),
      popped[n - 2],
      if extended then popped[32] else outer.rampz,
      if extended then popped[31] else outer.eind)
  }

  /** Reading back the mirror image of what Save pushed gives back the
      registers and SREG that were pushed, and on the extended parts RAMPZ and
      EIND too; on the other parts those two keep the values of `outer`. */
  lemma {:induction false} UnstackInvertsImage(c: Context, extended: bool, outer: Context)
    requires |c.r| == RegisterCount
    ensures Unstack(Reverse(Image(c, extended)), extended, outer)
            == Context(c.r, c.sreg, if extended then c.rampz else outer.rampz,
                       if extended then c.eind else outer.eind)
  {
    var img := Image(c, extended);
    var u := Unstack(Reverse(img), extended, outer);
    var o := if extended then 4 else 2;
    assert forall i :: 1 <= i < RegisterCount ==> img[o + i - 1] == c.r[i];
    assert u.r == c.r;
  }

  /** SREG after `cli`: the global interrupt flag cleared. */
  function Cli(s: Byte): Byte
  {
    BitAnd(s, 0x7F)
  }

  /** SREG after `clr r1` (that is, `eor r1, r1`): Z set, N, V and S cleared. */
  function ClrFlags(s: Byte): Byte
  {
    BitOr(BitAnd(s, 0xE3), 0x02)
  }

  /** `cli` clears the global interrupt flag I (bit 7) and keeps every other
      flag. */
  lemma CliClearsOnlyInterruptFlag(s: Byte)
    ensures !Bit(Cli(s), 7)
    ensures forall k :: 0 <= k < 7 ==> Bit(Cli(s), k) == Bit(s, k)
  {
    assert Pow2(7) - 1 == 0x7F;
    forall k | 0 <= k < 8
      ensures Bit(Cli(s), k) == (k < 7 && Bit(s, k))
    {
      AndBitsBit(s, 0x7F, 8, k);
      LowBitsSet(7, k);
    }
  }

  /** Bit `k` of SREG after `clr r1`, in terms of the two masks. */
  lemma ClrFlagsBit(s: Byte, k: nat)
    requires k < 8
    ensures Bit(ClrFlags(s), k) == ((Bit(s, k) && Bit(0xE3, k)) || Bit(0x02, k))
  {
    OrBitsBit(BitAnd(s, 0xE3), 0x02, 8, k);
    AndBitsBit(s, 0xE3, 8, k);
  }

  /** `clr r1` sets Z (bit 1), clears N, V and S (bits 2, 3 and 4), and keeps
      C, H, T and I (bits 0, 5, 6 and 7). */
  lemma ClrFlagsSetsZeroFlag(s: Byte)
    ensures Bit(ClrFlags(s), 1)
    ensures !Bit(ClrFlags(s), 2) && !Bit(ClrFlags(s), 3) && !Bit(ClrFlags(s), 4)
    ensures Bit(ClrFlags(s), 0) == Bit(s, 0) && Bit(ClrFlags(s), 5) == Bit(s, 5)
    ensures Bit(ClrFlags(s), 6) == Bit(s, 6) && Bit(ClrFlags(s), 7) == Bit(s, 7)
  {
    ClrFlagsBit(s, 0);
    ClrFlagsBit(s, 1);
    ClrFlagsBit(s, 2);
    ClrFlagsBit(s, 3);
    ClrFlagsBit(s, 4);
    ClrFlagsBit(s, 5);
    ClrFlagsBit(s, 6);
    ClrFlagsBit(s, 7);
  }

  /** The memory after Save: the image pushed below `sp`, then the final stack
      pointer stored into the control block at `tcb`. */
  function SavedMemory(mem: seq<Byte>, sp: int, tcb: int, c: Context, extended: bool): (m: seq<Byte>)
    requires |mem| == MemorySize && |c.r| == RegisterCount
    requires ImageSize(extended) <= sp < MemorySize && 0 <= tcb < MemorySize - 1
    ensures |m| == MemorySize && StoredSp(m, tcb) == sp - ImageSize(extended)
  {
    StoreSp(PushBytes(mem, sp, Image(c, extended)), tcb, sp - ImageSize(extended))
  }

  /** The window `(sp - n, sp]` Save writes the image into lies clear of the
      two stack-pointer bytes of the control block at `tcb`. */
  predicate ClearOfWindow(tcb: int, sp: int, n: nat)
  {
    tcb + 1 <= sp - n || sp < tcb
  }

  /** Whether the control block at `tcb` holds a stack pointer from which a
      whole image and a return address can be popped. */
  predicate Resumable(mem: seq<Byte>, tcb: int, extended: bool, threeBytePc: bool)
    requires |mem| == MemorySize && 0 <= tcb < MemorySize - 1
  {
    StoredSp(mem, tcb) + ImageSize(extended) + ReturnSize(threeBytePc) < MemorySize
  }

  /** The context Restore loads for the control block at `tcb`. */
  function RestoredContext(mem: seq<Byte>, tcb: int, extended: bool, outer: Context): (c: Context)
    requires |mem| == MemorySize && 0 <= tcb < MemorySize - 1
    requires StoredSp(mem, tcb) + ImageSize(extended) < MemorySize
    ensures |c.r| == RegisterCount
    ensures !extended ==> c.rampz == outer.rampz && c.eind == outer.eind
  {
    Unstack(PopBytes(mem, StoredSp(mem, tcb), ImageSize(extended)), extended, outer)
  }

  /** Save followed by Restore on the same control block gives back every
      saved register, SREG, RAMPZ and EIND, and puts the stack pointer back
      where it was before Save, provided the control block's stack-pointer
      field lies outside the window Save pushes into. */
  lemma SaveThenRestoreIsIdentity(mem: seq<Byte>, sp: int, tcb: int, c: Context, extended: bool)
    requires |mem| == MemorySize && |c.r| == RegisterCount
    requires ImageSize(extended) <= sp < MemorySize && 0 <= tcb < MemorySize - 1
    requires ClearOfWindow(tcb, sp, ImageSize(extended))
    ensures var m := SavedMemory(mem, sp, tcb, c, extended);
            && StoredSp(m, tcb) == sp - ImageSize(extended)
            && RestoredContext(m, tcb, extended, c) == c
  {
    SavedImagePopsMirrored(mem, sp, tcb, c, extended);
    UnstackInvertsImage(c, extended, c);
  }

  /** Popping the image back from where Save left the stack pointer yields
      the image in mirror order: storing the stack pointer into the control
      block did not overwrite any of it. */
  lemma SavedImagePopsMirrored(mem: seq<Byte>, sp: int, tcb: int, c: Context, extended: bool)
    requires |mem| == MemorySize && |c.r| == RegisterCount
    requires ImageSize(extended) <= sp < MemorySize && 0 <= tcb < MemorySize - 1
    requires ClearOfWindow(tcb, sp, ImageSize(extended))
    ensures PopBytes(SavedMemory(mem, sp, tcb, c, extended), sp - ImageSize(extended), ImageSize(extended))
            == Reverse(Image(c, extended))
  {
    var n, img := ImageSize(extended), Image(c, extended);
    PopBytesAgree(SavedMemory(mem, sp, tcb, c, extended), PushBytes(mem, sp, img), sp - n, n);
    PopAfterPushMirrors(mem, sp, img);
  }

  /** Popping reads only the bytes above the stack pointer: two memories that
      agree there pop the same bytes. */
  lemma PopBytesAgree(m: seq<Byte>, mem: seq<Byte>, s: int, n: nat)
    requires |m| == |mem| && -1 <= s && s + n < |mem|
    requires forall a :: s < a <= s + n ==> m[a] == mem[a]
    ensures PopBytes(m, s, n) == PopBytes(mem, s, n)
  {
    var p, q := PopBytes(m, s, n), PopBytes(mem, s, n);
    forall i | 0 <= i < n
      ensures p[i] == q[i]
    {
      assert m[s + 1 + i] == mem[s + 1 + i];
    }
  }

  /** Save changes no address outside the window it pushes into and the two
      stack-pointer bytes of the control block at `tcb`. */
  lemma SavedMemoryElsewhere(mem: seq<Byte>, sp: int, tcb: int, c: Context, extended: bool)
    requires |mem| == MemorySize && |c.r| == RegisterCount
    requires ImageSize(extended) <= sp < MemorySize && 0 <= tcb < MemorySize - 1
    ensures forall a :: 0 <= a < MemorySize && (a <= sp - ImageSize(extended) || sp < a) && a != tcb && a != tcb + 1
                        ==> SavedMemory(mem, sp, tcb, c, extended)[a] == mem[a]
  {
    PushBytesAt(mem, sp, Image(c, extended));
  }

  /** Save touches nothing but its own window and its own control block:
      the stack-pointer bytes another task's control block holds, and the
      image and return address that task left above that stack pointer, are
      all still there afterwards. */
  lemma SaveKeepsOtherTasksFrozen(mem: seq<Byte>, sp: int, tcb: int, c: Context, extended: bool, threeBytePc: bool,
                                  other: int)
    requires |mem| == MemorySize && |c.r| == RegisterCount
    requires ImageSize(extended) <= sp < MemorySize && 0 <= tcb < MemorySize - 1
    requires 0 <= other < MemorySize - 1 && Resumable(mem, other, extended, threeBytePc)
    requires other + 1 < tcb || tcb + 1 < other
    requires ClearOfWindow(other, sp, ImageSize(extended))
    requires ClearOfWindow(tcb, StoredSp(mem, other) + ImageSize(extended) + ReturnSize(threeBytePc),
                           ImageSize(extended) + ReturnSize(threeBytePc))
    requires sp <= StoredSp(mem, other)
             || StoredSp(mem, other) + ImageSize(extended) + ReturnSize(threeBytePc) <= sp - ImageSize(extended)
    ensures var m := SavedMemory(mem, sp, tcb, c, extended);
            && m[other] == mem[other] && m[other + 1] == mem[other + 1]
            && forall a :: StoredSp(mem, other) < a <= StoredSp(mem, other) + ImageSize(extended) + ReturnSize(threeBytePc)
                           ==> m[a] == mem[a]
  {
    SavedMemoryElsewhere(mem, sp, tcb, c, extended);
  }

  /** Pushing one more byte continues where the earlier pushes stopped. */
  lemma PushOneMore(mem: seq<Byte>, sp: int, bytes: seq<Byte>, v: Byte)
    requires |bytes| <= sp < |mem|
    ensures PushBytes(mem, sp, bytes + [v]) == PushBytes(mem, sp, bytes)[sp - |bytes| := v]
  {
    var a, b := PushBytes(mem, sp, bytes + [v]), PushBytes(mem, sp, bytes)[sp - |bytes| := v];
    PushBytesAt(mem, sp, bytes + [v]);
    PushBytesAt(mem, sp, bytes);
    forall i | 0 <= i < |mem|
      ensures a[i] == b[i]
    {
    }
  }

  /** `push` as one step of a sequence of pushes that started at `sp0` on
      memory `mem`: afterwards the memory is the result of pushing `pushed`
      and then `v`. */
  method PushNext(cpu: Cpu, v: Byte, ghost mem: seq<Byte>, ghost sp0: int, ghost pushed: seq<Byte>)
    returns (ghost pushed': seq<Byte>)
    requires cpu.Valid() && 0 < cpu.sp
    requires |pushed| <= sp0 < |mem| && cpu.sp == sp0 - |pushed|
    requires cpu.ram[..] == PushBytes(mem, sp0, pushed)
    modifies cpu`sp, cpu.ram
    ensures cpu.Valid() && pushed' == pushed + [v]
    ensures cpu.sp == sp0 - |pushed'| && cpu.ram[..] == PushBytes(mem, sp0, pushed')
  {
    cpu.Push(v);
    PushOneMore(mem, sp0, pushed, v);
    pushed' := pushed + [v];
  }

  /** `push r<from>` ... `push r31`, in register order. */
  method PushRegisters(cpu: Cpu, from: nat, ghost mem: seq<Byte>, ghost sp0: int, ghost pushed: seq<Byte>)
    returns (ghost pushed': seq<Byte>)
    requires cpu.Valid() && from <= RegisterCount && RegisterCount - from <= cpu.sp
    requires |pushed| <= sp0 < |mem| && cpu.sp == sp0 - |pushed|
    requires cpu.ram[..] == PushBytes(mem, sp0, pushed)
    modifies cpu`sp, cpu.ram
    ensures cpu.Valid() && pushed' == pushed + cpu.r[from..]
    ensures cpu.sp == sp0 - |pushed'| && cpu.ram[..] == PushBytes(mem, sp0, pushed')
  {
    pushed' := pushed;
    var d := from;
    while d < RegisterCount
      invariant from <= d <= RegisterCount
      invariant cpu.Valid() && pushed' == pushed + cpu.r[from..d]
      invariant cpu.sp == sp0 - |pushed'| && RegisterCount - d <= cpu.sp
      invariant cpu.ram[..] == PushBytes(mem, sp0, pushed')
    {
      pushed' := PushNext(cpu, cpu.r[d], mem, sp0, pushed');
      assert cpu.r[from..d + 1] == cpu.r[from..d] + [cpu.r[d]];
      d := d + 1;
    }
  }

  /** The bytes Save pushes before r2: r0, SREG, RAMPZ and EIND on the
      extended parts, then r1. */
  function StatusBytes(c: Context, extended: bool): (s: seq<Byte>)
    requires |c.r| == RegisterCount
    ensures |s| == ImageSize(extended) - 30
  {
    [c.r[0], c.sreg] + (if extended then [c.rampz, c.eind] else []) + [c.r[1]]
  }

  /** Save's first four instructions: r0 is pushed, SREG is copied into r0,
      interrupts are disabled and the copy of SREG is pushed. */
  method PushR0AndSreg(cpu: Cpu, ghost mem: seq<Byte>, ghost sp0: int, ghost pushed: seq<Byte>)
    returns (ghost pushed': seq<Byte>)
    requires cpu.Valid() && 2 <= cpu.sp
    requires |pushed| <= sp0 < |mem| && cpu.sp == sp0 - |pushed|
    requires cpu.ram[..] == PushBytes(mem, sp0, pushed)
    modifies cpu`sp, cpu`r, cpu`sreg, cpu.ram
    ensures cpu.Valid() && pushed' == pushed + [old(cpu.r[0]), old(cpu.sreg)]
    ensures cpu.sp == sp0 - |pushed'| && cpu.ram[..] == PushBytes(mem, sp0, pushed')
    ensures cpu.r == old(cpu.r)[0 := old(cpu.sreg)] && cpu.sreg == Cli(old(cpu.sreg))
  {
    pushed' := PushNext(cpu, cpu.r[0], mem, sp0, pushed);   // push r0
    cpu.r := cpu.r[0 := cpu.sreg];                          // in   r0, __SREG__
    cpu.sreg := Cli(cpu.sreg);                              // cli
    pushed' := PushNext(cpu, cpu.r[0], mem, sp0, pushed');  // push r0
  }

  /** On the extended parts RAMPZ and then EIND are read into r0 and
      pushed from there. */
  method PushExtendedAddressing(cpu: Cpu, ghost mem: seq<Byte>, ghost sp0: int, ghost pushed: seq<Byte>)
    returns (ghost pushed': seq<Byte>)
    requires cpu.Valid() && 2 <= cpu.sp
    requires |pushed| <= sp0 < |mem| && cpu.sp == sp0 - |pushed|
    requires cpu.ram[..] == PushBytes(mem, sp0, pushed)
    modifies cpu`sp, cpu`r, cpu.ram
    ensures cpu.Valid() && pushed' == pushed + [cpu.rampz, cpu.eind]
    ensures cpu.sp == sp0 - |pushed'| && cpu.ram[..] == PushBytes(mem, sp0, pushed')
    ensures cpu.r == old(cpu.r)[0 := cpu.eind]
  {
    cpu.r := cpu.r[0 := cpu.rampz];                         // in   r0, 0x3b
    pushed' := PushNext(cpu, cpu.r[0], mem, sp0, pushed);   // push r0
    cpu.r := cpu.r[0 := cpu.eind];                          // in   r0, 0x3c
    pushed' := PushNext(cpu, cpu.r[0], mem, sp0, pushed');  // push r0
  }

  /** r1 is pushed and then cleared, since compiled C code expects it to
      hold zero. */
  method PushR1(cpu: Cpu, ghost mem: seq<Byte>, ghost sp0: int, ghost pushed: seq<Byte>)
    returns (ghost pushed': seq<Byte>)
    requires cpu.Valid() && 1 <= cpu.sp
    requires |pushed| <= sp0 < |mem| && cpu.sp == sp0 - |pushed|
    requires cpu.ram[..] == PushBytes(mem, sp0, pushed)
    modifies cpu`sp, cpu`r, cpu`sreg, cpu.ram
    ensures cpu.Valid() && pushed' == pushed + [old(cpu.r[1])]
    ensures cpu.sp == sp0 - |pushed'| && cpu.ram[..] == PushBytes(mem, sp0, pushed')
    ensures cpu.r == old(cpu.r)[1 := 0] && cpu.sreg == ClrFlags(old(cpu.sreg))
  {
    pushed' := PushNext(cpu, cpu.r[1], mem, sp0, pushed);   // push r1
    cpu.r := cpu.r[1 := 0];                                 // clr  r1
    cpu.sreg := ClrFlags(cpu.sreg);
  }

  /** The first part of portSAVE_CONTEXT, up to and including `clr r1`. */
  method PushStatus(cpu: Cpu)
    requires cpu.Valid() && ImageSize(cpu.extended) - 30 <= cpu.sp
    modifies cpu`sp, cpu`r, cpu`sreg, cpu.ram
    ensures cpu.Valid()
    ensures cpu.ram[..] == PushBytes(old(cpu.ram[..]), old(cpu.sp), StatusBytes(old(cpu.Ctx()), cpu.extended))
    ensures cpu.sp == old(cpu.sp) - |StatusBytes(old(cpu.Ctx()), cpu.extended)|
    ensures cpu.r == old(cpu.r)[0 := if cpu.extended then cpu.eind else old(cpu.sreg)][1 := 0]
    ensures cpu.sreg == ClrFlags(Cli(old(cpu.sreg)))
  {
    ghost var mem, sp0, c := cpu.ram[..], cpu.sp, cpu.Ctx();
    ghost var p := PushR0AndSreg(cpu, mem, sp0, []);
    if cpu.extended {
      p := PushExtendedAddressing(cpu, mem, sp0, p);
    }
    p := PushR1(cpu, mem, sp0, p);
    assert p == StatusBytes(c, cpu.extended);
  }

  /** The last part of portSAVE_CONTEXT: X is pointed at the running task's
      control block and the two halves of the stack pointer are stored
      through it, low byte first, each passing through r0. */
  method StoreStackPointer(cpu: Cpu)
    requires cpu.Valid()
    modifies cpu`r, cpu.ram
    ensures cpu.Valid()
    ensures cpu.ram[..] == StoreSp(old(cpu.ram[..]), cpu.currentTcb, cpu.sp)
    ensures cpu.r[0] == Hi(cpu.sp) && cpu.X() == Next(cpu.currentTcb + 1)
    ensures cpu.r == old(cpu.r)[0 := cpu.r[0]][26 := cpu.r[26]][27 := cpu.r[27]]
  {
    ghost var mem: seq<Byte>, tcb: int, r0 := cpu.ram[..], cpu.currentTcb, cpu.r;
    cpu.LoadCurrentTcbIntoX();                         // lds  r26, pxCurrentTCB ; lds r27, pxCurrentTCB + 1
    ghost var r1 := cpu.r;
    cpu.r := cpu.r[0 := Lo(cpu.sp)];                   // in   r0, 0x3d
    assert cpu.r[26] == r1[26] && cpu.r[27] == r1[27];
    assert cpu.X() == tcb;
    cpu.StoreXPostIncrement(cpu.r[0]);                 // st   x+, r0
    assert cpu.X() == tcb + 1;
    ghost var r2 := cpu.r;
    cpu.r := cpu.r[0 := Hi(cpu.sp)];                   // in   r0, 0x3e
    assert cpu.r[26] == r2[26] && cpu.r[27] == r2[27];
    assert cpu.X() == tcb + 1;
    cpu.StoreXPostIncrement(cpu.r[0]);                 // st   x+, r0
    assert cpu.ram[..] == mem[tcb := Lo(cpu.sp)][tcb + 1 := Hi(cpu.sp)];
  }

  /** Every push of portSAVE_CONTEXT: the image goes below the stack
      pointer, r0 is left holding EIND or SREG and r1 is cleared. */
  method PushImage(cpu: Cpu)
    requires cpu.Valid() && ImageSize(cpu.extended) <= cpu.sp
    modifies cpu`sp, cpu`r, cpu`sreg, cpu.ram
    ensures cpu.Valid()
    ensures cpu.ram[..] == PushBytes(old(cpu.ram[..]), old(cpu.sp), Image(old(cpu.Ctx()), cpu.extended))
    ensures cpu.sp == old(cpu.sp) - ImageSize(cpu.extended)
    ensures cpu.r == old(cpu.r)[0 := cpu.r[0]][1 := 0]
    ensures cpu.sreg == ClrFlags(Cli(old(cpu.sreg)))
  {
    ghost var mem, sp0, c := cpu.ram[..], cpu.sp, cpu.Ctx();
    PushStatus(cpu);
    ghost var p := PushRegisters(cpu, 2, mem, sp0, StatusBytes(c, cpu.extended));
    StatusThenRegisters(c, cpu.extended, cpu.r);
  }

  /** portSAVE_CONTEXT. */
  method SaveContext(cpu: Cpu)
    requires cpu.Valid() && ImageSize(cpu.extended) <= cpu.sp
    modifies cpu, cpu.ram
    ensures cpu.Valid()
    ensures cpu.ram[..] == SavedMemory(old(cpu.ram[..]), old(cpu.sp), cpu.currentTcb, old(cpu.Ctx()), cpu.extended)
    ensures cpu.sp == old(cpu.sp) - ImageSize(cpu.extended)
    ensures cpu.r[0] == Hi(cpu.sp) && cpu.r[1] == 0 && cpu.X() == Next(cpu.currentTcb + 1)
    ensures cpu.r == old(cpu.r)[0 := cpu.r[0]][1 := 0][26 := cpu.r[26]][27 := cpu.r[27]]
    ensures cpu.sreg == ClrFlags(Cli(old(cpu.sreg)))
    ensures cpu.rampz == old(cpu.rampz) && cpu.eind == old(cpu.eind)
    ensures cpu.pc == old(cpu.pc) && cpu.currentTcb == old(cpu.currentTcb)
  {
    PushImage(cpu);
    ghost var r1 := cpu.r;
    StoreStackPointer(cpu);
    assert cpu.r[1] == r1[1];
  }

  /** The status bytes followed by r2..r31 make up the whole image. */
  lemma StatusThenRegisters(c: Context, extended: bool, r: seq<Byte>)
    requires |c.r| == RegisterCount && |r| == RegisterCount
    requires forall i :: 2 <= i < RegisterCount ==> r[i] == c.r[i]
    ensures StatusBytes(c, extended) + r[2..] == Image(c, extended)
  {
    assert r[2..] == c.r[2..];
    assert c.r[1..] == [c.r[1]] + c.r[2..];
  }

  /** `pop r31` ... `pop r<to>`, in reverse register order: register `d`
      receives the byte `32 - d` places above the starting stack pointer. */
  method PopRegisters(cpu: Cpu, to: nat)
    requires cpu.Valid() && 0 < to <= RegisterCount && cpu.sp + RegisterCount - to < MemorySize
    modifies cpu`sp, cpu`r
    ensures cpu.Valid() && cpu.sp == old(cpu.sp) + RegisterCount - to
    ensures forall d :: 0 <= d < RegisterCount ==>
              cpu.r[d] == if to <= d then cpu.ram[old(cpu.sp) + RegisterCount - d] else old(cpu.r[d])
  {
    var d := RegisterCount;
    while d > to
      invariant to <= d <= RegisterCount
      invariant cpu.Valid() && cpu.sp == old(cpu.sp) + RegisterCount - d
      invariant forall e :: 0 <= e < RegisterCount ==>
                  cpu.r[e] == if d <= e then cpu.ram[old(cpu.sp) + RegisterCount - e] else old(cpu.r[e])
    {
      d := d - 1;
      cpu.PopTo(d);
    }
  }

  /** The first part of portRESTORE_CONTEXT: X is pointed at the running
      task's control block and the stack pointer is loaded from its first two
      bytes, low byte first, through r28 and r29. */
  method LoadStackPointer(cpu: Cpu)
    requires cpu.Valid()
    modifies cpu`sp, cpu`r
    ensures cpu.Valid()
    ensures cpu.sp == StoredSp(cpu.ram[..], cpu.currentTcb)
    ensures cpu.r[28] == cpu.ram[cpu.currentTcb] && cpu.r[29] == cpu.ram[cpu.currentTcb + 1]
    ensures cpu.ram[..] == old(cpu.ram[..])
  {
    ghost var tcb := cpu.currentTcb;
    cpu.LoadCurrentTcbIntoX();                   // lds  r26, pxCurrentTCB ; lds r27, pxCurrentTCB + 1
    cpu.LoadXPostIncrement(28);                  // ld   r28, x+
    ghost var r1 := cpu.r;
    JoinSplit(cpu.r[28], Hi(cpu.sp));
    cpu.sp := WordOf(cpu.r[28], Hi(cpu.sp));     // out  __SP_L__, r28
    assert Lo(cpu.sp) == r1[28] && cpu.X() == tcb + 1;
    cpu.LoadXPostIncrement(29);                  // ld   r29, x+
    cpu.sp := WordOf(Lo(cpu.sp), cpu.r[29]);     // out  __SP_H__, r29
    assert cpu.r[28] == r1[28];
  }

  /** The last part of portRESTORE_CONTEXT, after r1 is popped: on the
      extended parts EIND and then RAMPZ are popped through r0; then SREG is
      popped through r0, and finally r0 itself. */
  method PopStatus(cpu: Cpu)
    requires cpu.Valid() && cpu.sp + ImageSize(cpu.extended) - 31 < MemorySize
    modifies cpu`sp, cpu`r, cpu`sreg, cpu`rampz, cpu`eind
    ensures cpu.Valid()
    ensures var s, o := old(cpu.sp), ImageSize(cpu.extended) - 33;
            && cpu.sp == s + o + 2
            && cpu.r == old(cpu.r)[0 := cpu.ram[s + o + 2]] && cpu.sreg == cpu.ram[s + o + 1]
            && cpu.eind == (if cpu.extended then cpu.ram[s + 1] else old(cpu.eind))
            && cpu.rampz == (if cpu.extended then cpu.ram[s + 2] else old(cpu.rampz))
  {
    if cpu.extended {
      cpu.PopTo(0);                              // pop  r0
      cpu.eind := cpu.r[0];                      // out  0x3c, r0
      cpu.PopTo(0);                              // pop  r0
      cpu.rampz := cpu.r[0];                     // out  0x3b, r0
    }
    cpu.PopTo(0);                                // pop  r0
    cpu.sreg := cpu.r[0];                        // out  __SREG__, r0
    cpu.PopTo(0);                                // pop  r0
  }

  /** Every pop of portRESTORE_CONTEXT, `pop r31` down to the final
      `pop r0`: the context becomes the image above the stack pointer. */
  method PopImage(cpu: Cpu, ghost outer: Context)
    requires cpu.Valid() && cpu.sp + ImageSize(cpu.extended) < MemorySize
    requires outer.rampz == cpu.rampz && outer.eind == cpu.eind
    modifies cpu`sp, cpu`r, cpu`sreg, cpu`rampz, cpu`eind
    ensures cpu.Valid() && cpu.sp == old(cpu.sp) + ImageSize(cpu.extended)
    ensures cpu.Ctx() == Unstack(PopBytes(cpu.ram[..], old(cpu.sp), ImageSize(cpu.extended)), cpu.extended, outer)
    ensures cpu.ram[..] == old(cpu.ram[..])
  {
    PopRegisters(cpu, 1);                        // pop  r31 ... pop r1
    ghost var r1 := cpu.r;
    PopStatus(cpu);
    assert forall d :: 1 <= d < RegisterCount ==> cpu.r[d] == r1[d];
    PoppedImage(cpu.ram[..], old(cpu.sp), cpu.extended, outer, cpu.Ctx());
  }

  /** portRESTORE_CONTEXT. */
  method RestoreContext(cpu: Cpu)
    requires cpu.Valid()
    requires StoredSp(cpu.ram[..], cpu.currentTcb) + ImageSize(cpu.extended) < MemorySize
    modifies cpu`sp, cpu`r, cpu`sreg, cpu`rampz, cpu`eind
    ensures cpu.Valid()
    ensures cpu.sp == StoredSp(cpu.ram[..], cpu.currentTcb) + ImageSize(cpu.extended)
    ensures cpu.Ctx() == RestoredContext(cpu.ram[..], cpu.currentTcb, cpu.extended, old(cpu.Ctx()))
    ensures cpu.pc == old(cpu.pc) && cpu.currentTcb == old(cpu.currentTcb)
  {
    ghost var outer, mem, tcb := cpu.Ctx(), cpu.ram[..], cpu.currentTcb;
    LoadStackPointer(cpu);
    ghost var sp0 := cpu.sp;
    PopImage(cpu, outer);
    PoppedFromStoredSp(mem, tcb, cpu.extended, outer, sp0, cpu.Ctx());
  }

  /** Popping the image from the stack pointer stored in the control block
      is what `RestoredContext` describes. */
  lemma PoppedFromStoredSp(mem: seq<Byte>, tcb: int, extended: bool, outer: Context, sp0: int, c: Context)
    requires |mem| == MemorySize && 0 <= tcb < MemorySize - 1
    requires sp0 == StoredSp(mem, tcb) && sp0 + ImageSize(extended) < MemorySize
    requires c == Unstack(PopBytes(mem, sp0, ImageSize(extended)), extended, outer)
    ensures c == RestoredContext(mem, tcb, extended, outer)
  {
  }

  /** A context whose registers, SREG, RAMPZ and EIND hold the bytes above
      `sp` in the order Restore pops them is the one `Unstack` describes. */
  lemma PoppedImage(mem: seq<Byte>, sp: int, extended: bool, outer: Context, c: Context)
    requires |mem| == MemorySize && 0 <= sp && sp + ImageSize(extended) < MemorySize && |c.r| == RegisterCount
    requires forall d :: 1 <= d < RegisterCount ==> c.r[d] == mem[sp + RegisterCount - d]
    requires c.r[0] == mem[sp + ImageSize(extended)] && c.sreg == mem[sp + ImageSize(extended) - 1]
    requires c.eind == (if extended then mem[sp + 32] else outer.eind)
    requires c.rampz == (if extended then mem[sp + 33] else outer.rampz)
    ensures c == Unstack(PopBytes(mem, sp, ImageSize(extended)), extended, outer)
  {
    var n := ImageSize(extended);
    var p := PopBytes(mem, sp, n);
    var u := Unstack(p, extended, outer);
    forall i | 0 <= i < RegisterCount
      ensures c.r[i] == u.r[i]
    {
      if i == 0 {
        assert u.r[0] == p[n - 1];
      } else {
        assert u.r[i] == p[RegisterCount - 1 - i];
      }
    }
    assert c.r == u.r;
  }
}
