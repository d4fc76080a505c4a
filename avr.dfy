// The slice of an 8-bit AVR core that the FreeRTOS port layer drives by hand:
// the register file r0..r31, the status register SREG, the extended-address
// registers RAMPZ and EIND of the larger parts, a 16-bit stack pointer, the
// program counter, and the data memory the stack lives in.  The stack grows
// downward: `push` stores at SP and then decrements it, `pop` increments SP
// and then loads.  The scheduler's `pxCurrentTCB` pointer is kept here too,
// because the context-switch sequences read it with `lds`.

module Avr {

  /** An 8-bit value: a register, a memory cell or an I/O register. */
  type Byte = b: int | 0 <= b < 0x100

  /** A 16-bit value: a data address, a code word address or `uint16_t`. */
  type Word = w: int | 0 <= w < 0x1_0000

  /** Size of the data space the 16-bit stack pointer and X pointer address. */
  const MemorySize: nat := 0x1_0000

  /** Number of general-purpose registers. */
  const RegisterCount: nat := 32

  /** Bit 7 of SREG, the global interrupt enable flag. */
  const SregI: Byte := 0x80

  /** Low byte of a non-negative value, as `x & 0xff`. */
  function Lo(x: int): Byte
    requires 0 <= x
  {
    x % 256
  }

  /** Second byte of a non-negative value, as `(x >> 8) & 0xff`. */
  function Hi(x: int): Byte
    requires 0 <= x
  {
    (x / 256) % 256
  }

  /** 2 to the power `k`: the value of `1 << k`. */
  function Pow2(k: nat): (p: nat)
    ensures 0 < p
  {
    if k == 0 then 1 else 2 * Pow2(k - 1)
  }

  /** Bit `k` of `x`, counting from the least significant bit 0. */
  function Bit(x: nat, k: nat): bool
  {
    if k == 0 then x % 2 == 1 else Bit(x / 2, k - 1)
  }

  /** The `n` low bits of `a | b`, built from the least significant bit up. */
  function OrBits(a: nat, b: nat, n: nat): (r: nat)
    ensures r < Pow2(n)
  {
    if n == 0 then 0
    else 2 * OrBits(a / 2, b / 2, n - 1) + (if a % 2 == 1 || b % 2 == 1 then 1 else 0)
  }

  /** The `n` low bits of `a & b`. */
  function AndBits(a: nat, b: nat, n: nat): (r: nat)
    ensures r < Pow2(n)
  {
    if n == 0 then 0
    else 2 * AndBits(a / 2, b / 2, n - 1) + (if a % 2 == 1 && b % 2 == 1 then 1 else 0)
  }

  /** Bitwise OR of two bytes. */
  function BitOr(a: Byte, b: Byte): Byte
  {
    OrBits(a, b, 8)
  }

  /** Bitwise AND of two bytes. */
  function BitAnd(a: Byte, b: Byte): Byte
  {
    AndBits(a, b, 8)
  }

  /** Zero has no bit set. */
  lemma {:induction false} ZeroHasNoBits(k: nat)
    ensures !Bit(0, k)
  {
    if k != 0 {
      ZeroHasNoBits(k - 1);
    }
  }

  /** Bit `k` of `a | b` is set exactly when it is set in `a` or in `b`
      (and lies among the `n` bits computed). */
  lemma {:induction false} OrBitsBit(a: nat, b: nat, n: nat, k: nat)
    ensures Bit(OrBits(a, b, n), k) == (k < n && (Bit(a, k) || Bit(b, k)))
    decreases n
  {
    if n == 0 {
      ZeroHasNoBits(k);
    } else {
      var rest := OrBits(a / 2, b / 2, n - 1);
      var low := if a % 2 == 1 || b % 2 == 1 then 1 else 0;
      assert (2 * rest + low) / 2 == rest && (2 * rest + low) % 2 == low;
      if k != 0 {
        OrBitsBit(a / 2, b / 2, n - 1, k - 1);
      }
    }
  }

  /** Bit `k` of `a & b` is set exactly when it is set in both. */
  lemma {:induction false} AndBitsBit(a: nat, b: nat, n: nat, k: nat)
    ensures Bit(AndBits(a, b, n), k) == (k < n && Bit(a, k) && Bit(b, k))
    decreases n
  {
    if n == 0 {
      ZeroHasNoBits(k);
    } else {
      var rest := AndBits(a / 2, b / 2, n - 1);
      var low := if a % 2 == 1 && b % 2 == 1 then 1 else 0;
      assert (2 * rest + low) / 2 == rest && (2 * rest + low) % 2 == low;
      if k != 0 {
        AndBitsBit(a / 2, b / 2, n - 1, k - 1);
      }
    }
  }

  /** Two values below 2^n with the same n low bits are equal. */
  lemma {:induction false} SameBitsSameValue(x: nat, y: nat, n: nat)
    requires x < Pow2(n) && y < Pow2(n)
    requires forall k :: 0 <= k < n ==> Bit(x, k) == Bit(y, k)
    ensures x == y
    decreases n
  {
    if n != 0 {
      forall k | 0 <= k < n - 1
        ensures Bit(x / 2, k) == Bit(y / 2, k)
      {
        assert Bit(x, k + 1) == Bit(y, k + 1);
      }
      SameBitsSameValue(x / 2, y / 2, n - 1);
      assert Bit(x, 0) == Bit(y, 0);
    }
  }

  /** `2^n - 1`, the value with the n low bits set, has exactly those set. */
  lemma {:induction false} LowBitsSet(n: nat, k: nat)
    ensures Bit(Pow2(n) - 1, k) == (k < n)
    decreases n
  {
    if n == 0 {
      ZeroHasNoBits(k);
    } else {
      assert (Pow2(n) - 1) / 2 == Pow2(n - 1) - 1 && (Pow2(n) - 1) % 2 == 1;
      if k != 0 {
        LowBitsSet(n - 1, k - 1);
      }
    }
  }

  /** The 16-bit value whose low byte is `lo` and high byte is `hi`. */
  function WordOf(lo: Byte, hi: Byte): Word
  {
    lo as int + 256 * hi as int
  }

  /** Joining two bytes into a 16-bit value loses nothing either. */
  lemma JoinSplit(lo: Byte, hi: Byte)
    ensures Lo(WordOf(lo, hi)) == lo && Hi(WordOf(lo, hi)) == hi
  {
  }

  /** A 16-bit increment, wrapping from 0xFFFF to 0. */
  function Next(w: Word): Word
  {
    if w == 0xFFFF then 0 else w + 1
  }

  /** Splitting a 16-bit value into its two bytes loses nothing. */
  lemma SplitJoin(w: Word)
    ensures WordOf(Lo(w), Hi(w)) == w
  {
  }

  /** The memory after pushing `bytes` one at a time, first byte first, starting
      at address `sp`: each push stores at the current address and then moves
      one address down. */
  function PushBytes(mem: seq<Byte>, sp: int, bytes: seq<Byte>): (m: seq<Byte>)
    requires |bytes| - 1 <= sp < |mem|
    ensures |m| == |mem|
    decreases |bytes|
  {
    if bytes == [] then mem else PushBytes(mem[sp := bytes[0]], sp - 1, bytes[1..])
  }

  /** Pushing two runs of bytes one after the other, the second from where
      the first stopped, is pushing the two runs joined. */
  lemma PushBytesInTwo(mem: seq<Byte>, sp: int, a: seq<Byte>, b: seq<Byte>, sp1: int, m1: seq<Byte>, m2: seq<Byte>)
    requires |a| + |b| - 1 <= sp < |mem| && sp1 == sp - |a|
    requires m1 == PushBytes(mem, sp, a) && m2 == PushBytes(m1, sp1, b)
    ensures m2 == PushBytes(mem, sp, a + b)
  {
    PushBytesAppend(mem, sp, a, b);
  }

  /** The same for three runs. */
  lemma PushBytesInThree(mem: seq<Byte>, sp: int, a: seq<Byte>, b: seq<Byte>, c: seq<Byte>,
                         sp1: int, sp2: int, m1: seq<Byte>, m2: seq<Byte>, m3: seq<Byte>)
    requires |a| + |b| + |c| - 1 <= sp < |mem| && sp1 == sp - |a| && sp2 == sp1 - |b|
    requires m1 == PushBytes(mem, sp, a) && m2 == PushBytes(m1, sp1, b) && m3 == PushBytes(m2, sp2, c)
    ensures m3 == PushBytes(mem, sp, a + b + c)
  {
    PushBytesAppend(mem, sp, a, b);
    PushBytesAppend(mem, sp, a + b, c);
  }

  /** The closed form of `PushBytes`: the pushed bytes occupy the window
      `(sp - |bytes|, sp]`, the k-th pushed byte at `sp - k`, and every other
      address keeps its content. */
  lemma {:induction false} PushBytesAt(mem: seq<Byte>, sp: int, bytes: seq<Byte>)
    requires |bytes| - 1 <= sp < |mem|
    ensures forall a :: 0 <= a < |mem| ==>
              PushBytes(mem, sp, bytes)[a] == if sp - |bytes| < a <= sp then bytes[sp - a] else mem[a]
    decreases |bytes|
  {
    if bytes != [] {
      PushBytesAt(mem[sp := bytes[0]], sp - 1, bytes[1..]);
    }
  }

  /** Pushing `a` and then, from where those pushes stopped, `b` is the same
      as pushing `a + b`. */
  lemma {:induction false} PushBytesAppend(mem: seq<Byte>, sp: int, a: seq<Byte>, b: seq<Byte>)
    requires |a| + |b| - 1 <= sp < |mem|
    ensures PushBytes(PushBytes(mem, sp, a), sp - |a|, b) == PushBytes(mem, sp, a + b)
    decreases |a|
  {
    if a == [] {
      assert a + b == b;
    } else {
      PushBytesAppend(mem[sp := a[0]], sp - 1, a[1..], b);
      assert (a + b)[0] == a[0] && (a + b)[1..] == a[1..] + b;
    }
  }

  /** The `n` bytes obtained by popping `n` times starting from stack pointer
      `sp`, in the order they are popped: each pop first moves one address up
      and then loads, so the i-th popped byte comes from `sp + 1 + i`. */
  function PopBytes(mem: seq<Byte>, sp: int, n: nat): (p: seq<Byte>)
    requires -1 <= sp && sp + n < |mem|
    ensures |p| == n
    ensures forall i :: 0 <= i < n ==> p[i] == mem[sp + 1 + i]
    decreases n
  {
    if n == 0 then [] else [mem[sp + 1]] + PopBytes(mem, sp + 1, n - 1)
  }

  /** `s` backwards. */
  function Reverse<T>(s: seq<T>): (r: seq<T>)
    ensures |r| == |s|
    ensures forall i :: 0 <= i < |s| ==> r[i] == s[|s| - 1 - i]
  {
    if s == [] then [] else Reverse(s[1..]) + [s[0]]
  }

  /** Popping as many bytes as were pushed, from where the pushes left the
      stack pointer, yields the pushed bytes in mirror order. */
  lemma PopAfterPushMirrors(mem: seq<Byte>, sp: int, bytes: seq<Byte>)
    requires |bytes| - 1 <= sp < |mem|
    ensures PopBytes(PushBytes(mem, sp, bytes), sp - |bytes|, |bytes|) == Reverse(bytes)
  {
    PushBytesAt(mem, sp, bytes);
  }

  /** Number of bytes a return address takes on the stack: two with a 16-bit
      program counter, three on the parts whose program counter is 22 bits
      wide (of the parts the port names, only the ATmega2560 and 2561). */
  function ReturnSize(threeBytePc: bool): nat
  {
    if threeBytePc then 3 else 2
  }

  /** The program counter `ret` loads from the bytes it popped: the most
      significant byte is popped first. */
  function ReturnAddress(popped: seq<Byte>): int
    requires |popped| == 2 || |popped| == 3
  {
    if |popped| == 3 then popped[0] as int * 0x1_0000 + popped[1] as int * 0x100 + popped[2] as int
    else popped[0] as int * 0x100 + popped[1] as int
  }

  /** The processor state a context switch preserves: r0..r31, SREG, RAMPZ, EIND. */
  datatype Context = Context(r: seq<Byte>, sreg: Byte, rampz: Byte, eind: Byte)

  /** The 16-bit value stored little-endian in the first two bytes of the task
      control block at `tcb`: the task's saved stack pointer. */
  function StoredSp(mem: seq<Byte>, tcb: int): Word
    requires 0 <= tcb && tcb + 1 < |mem|
  {
    WordOf(mem[tcb], mem[tcb + 1])
  }

  /** The memory after storing `sp` into the first two bytes of the task
      control block at `tcb`, low byte first. */
  function StoreSp(mem: seq<Byte>, tcb: int, sp: Word): (m: seq<Byte>)
    requires 0 <= tcb && tcb + 1 < |mem|
    ensures |m| == |mem| && StoredSp(m, tcb) == sp
    ensures forall a :: 0 <= a < |mem| && a != tcb && a != tcb + 1 ==> m[a] == mem[a]
  {
    SplitJoin(sp);
    mem[tcb := Lo(sp)][tcb + 1 := Hi(sp)]
  }

  class Cpu {
    /** Whether this is one of the ATmega640/1280/1281/2560/2561, the parts
        on which Save and Restore also move RAMPZ and EIND. */
    const extended: bool
    /** Whether the program counter is 22 bits wide, so that `call` pushes
        and `ret` pops three bytes: the ATmega2560 and 2561 only. */
    const threeBytePc: bool
    /** The data memory. */
    const ram: array<Byte>
    /** The register file r0..r31. */
    var r: seq<Byte>
    var sreg: Byte
    var rampz: Byte
    var eind: Byte
    var sp: int
    var pc: int
    /** The address of the running task's control block (`pxCurrentTCB`). */
    var currentTcb: int

    ghost predicate Valid()
      reads this
    {
      && ram.Length == MemorySize
      && |r| == RegisterCount
      && 0 <= sp < MemorySize
      && 0 <= currentTcb < MemorySize - 1
    }

    /** The state a context switch saves and restores. */
    function Ctx(): Context
      reads this
    {
      Context(r, sreg, rampz, eind)
    }

    /** The X pointer, the register pair r27:r26. */
    function X(): Word
      reads this
      requires Valid()
    {
      WordOf(r[26], r[27])
    }

    constructor (extended: bool, threeBytePc: bool)
      requires threeBytePc ==> extended
      ensures Valid() && fresh(ram)
      ensures this.extended == extended && this.threeBytePc == threeBytePc
      ensures r == seq(RegisterCount, _ => 0) && sreg == 0 && rampz == 0 && eind == 0
      ensures sp == MemorySize - 1 && pc == 0 && currentTcb == 0
    {
      this.extended, this.threeBytePc := extended, threeBytePc;
      ram := new Byte[MemorySize];
      r := seq(RegisterCount, _ => 0);
      sreg, rampz, eind := 0, 0, 0;
      sp, pc, currentTcb := MemorySize - 1, 0, 0;
    }

    /** `push`: store at SP, then decrement SP. */
    method Push(v: Byte)
      requires Valid() && 0 < sp
      modifies this`sp, ram
      ensures Valid()
      ensures sp == old(sp) - 1
      ensures ram[..] == old(ram[..])[old(sp) := v]
    {
      ram[sp] := v;
      sp := sp - 1;
    }

    /** `pop`: increment SP, then load. */
    method Pop() returns (v: Byte)
      requires Valid() && sp < MemorySize - 1
      modifies this`sp
      ensures Valid()
      ensures sp == old(sp) + 1 && v == ram[sp]
    {
      sp := sp + 1;
      v := ram[sp];
    }

    /** `pop rd`. */
    method PopTo(d: nat)
      requires Valid() && d < RegisterCount && sp < MemorySize - 1
      modifies this`sp, this`r
      ensures Valid()
      ensures sp == old(sp) + 1 && r == old(r)[d := ram[sp]]
    {
      var v := Pop();
      r := r[d := v];
    }

    /** `lds r26, pxCurrentTCB` and `lds r27, pxCurrentTCB + 1`: load the
        16-bit pointer to the running task's control block into X. */
    method LoadCurrentTcbIntoX()
      requires Valid()
      modifies this`r
      ensures Valid() && X() == currentTcb && r == old(r)[26 := r[26]][27 := r[27]]
    {
      r := r[26 := Lo(currentTcb)][27 := Hi(currentTcb)];
      SplitJoin(currentTcb);
    }

    /** The post-increment of X: r26 counts up and carries into r27, so
        the 16-bit pointer wraps from 0xFFFF to 0. */
    method IncrementX()
      requires Valid()
      modifies this`r
      ensures Valid() && X() == Next(old(X())) && r == old(r)[26 := r[26]][27 := r[27]]
    {
      if r[26] < 0xFF {
        r := r[26 := r[26] + 1];
      } else {
        r := r[26 := 0][27 := if r[27] < 0xFF then r[27] + 1 else 0];
      }
    }

    /** `st x+, rs`: store through X, then increment X. */
    method StoreXPostIncrement(v: Byte)
      requires Valid()
      modifies this`r, ram
      ensures Valid()
      ensures ram[..] == old(ram[..])[old(X()) := v]
      ensures X() == Next(old(X())) && r == old(r)[26 := r[26]][27 := r[27]]
    {
      ram[X()] := v;
      IncrementX();
    }

    /** `ld rd, x+`: load through X into rd (not r26/r27), then increment X. */
    method LoadXPostIncrement(d: nat)
      requires Valid() && d < RegisterCount && d != 26 && d != 27
      modifies this`r
      ensures Valid()
      ensures r[d] == ram[old(X())]
      ensures X() == Next(old(X())) && r == old(r)[d := r[d]][26 := r[26]][27 := r[27]]
    {
      r := r[d := ram[X()]];
      IncrementX();
    }

    /** `ret`: pop the return address, most significant byte first, into PC. */
    method Ret()
      requires Valid() && sp + ReturnSize(threeBytePc) < MemorySize
      modifies this`sp, this`pc
      ensures Valid()
      ensures sp == old(sp) + ReturnSize(threeBytePc)
      ensures pc == ReturnAddress(PopBytes(ram[..], old(sp), ReturnSize(threeBytePc)))
    {
      var high := Pop();
      var low := Pop();
      if threeBytePc {
        var lowest := Pop();
        pc := high as int * 0x1_0000 + low as int * 0x100 + lowest as int;
      } else {
        pc := high as int * 0x100 + low as int;
      }
    }
  }
}
