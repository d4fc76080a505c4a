// prvSetupTimerInterrupt: programming the interrupt that drives the tick.
// With timer 2 or timer 3 the compare-match value is derived from the CPU
// clock and the tick rate in 32-bit unsigned arithmetic and written to the
// output-compare register; the mode, prescaler and interrupt-enable bits are
// then set in the timer's control registers.  With the watchdog, one control
// word enables its interrupt at the shortest timeout.

module TickTimer {
  import opened Avr
  import opened Config

  /** 2^32: `uint32_t` arithmetic wraps modulo this. */
  const U32: nat := 0x1_0000_0000

  /** portCLOCK_PRESCALER: the timer counts once every 64 CPU cycles. */
  const ClockPrescaler: nat := 64

  /** Timer 2 constants: CTC mode in TCCR2A, clock/64 in TCCR2B, OCIE2A in TIMSK2. */
  const Timer2ClearCounterOnMatch: Byte := 0x02
  const Timer2Prescale64: Byte := 0x04
  const Timer2CompareMatchAInterruptEnable: Byte := 0x02

  /** Timer 3 constants: WGM32 (CTC) and CS31|CS30 (clock/64) in TCCR3B, OCIE3A in TIMSK3. */
  const Timer3ClearCounterOnMatch: Byte := 0x08
  const Timer3Prescale64: Byte := 0x03
  const Timer3CompareMatchAInterruptEnable: Byte := 0x02

  /** Bit positions in the watchdog control register. */
  const WDIE: nat := 6
  const WDE: nat := 3
  const WDP2: nat := 2
  const WDP1: nat := 1
  const WDP0: nat := 0

  /** The peripheral registers the set-up routines touch. */
  datatype IoRegister = OCR2A | TCCR2A | TCCR2B | TIMSK2 | OCR3AH | OCR3AL | TCCR3B | TIMSK3 | WDTCSR

  /** `ulCompareMatch` at the end of its derivation: clock / rate, then
      divided by the prescaler, then minus one, all in `uint32_t`. */
  function CompareValue(clock: nat, rate: nat): (v: nat)
    requires clock < U32 && 0 < rate < U32
    ensures v < U32
  {
    (clock / rate / ClockPrescaler + U32 - 1) % U32
  }

  /** What the compare value means: when the quotient is at least one, it is
      the count whose (value + 1) timer periods of 64 cycles fit in one tick
      with less than one more period to spare; when the quotient is zero
      (a tick shorter than 64 cycles), the subtraction wraps to 2^32 - 1. */
  lemma CompareValuePeriod(clock: nat, rate: nat)
    requires clock < U32 && 0 < rate < U32
    ensures var v := CompareValue(clock, rate);
            && (clock / rate / ClockPrescaler == 0 ==> v == U32 - 1)
            && (clock / rate / ClockPrescaler != 0 ==>
                  (v + 1) * ClockPrescaler * rate <= clock < (v + 2) * ClockPrescaler * rate)
  {
    var q := clock / rate / ClockPrescaler;
    DividedTwice(clock, rate, ClockPrescaler);
    QuotientAtMost(clock, rate);
    QuotientAtMost(clock / rate, ClockPrescaler);
    if q == 0 {
      WrapOnce(U32 - 1, U32);
    } else {
      WrapOnce(q - 1 + U32, U32);
      assert CompareValue(clock, rate) == q - 1;
    }
  }

  /** Dividing by a positive number never makes a value larger. */
  lemma QuotientAtMost(x: nat, a: nat)
    requires 0 < a
    ensures x / a <= x
  {
    var q := x / a;
    DivisionBrackets(x, a);
    MultiplyMonotone(1, a, q);
    assert q <= q * a;
  }

  /** Below `2 * m`, reducing modulo `m` subtracts `m` at most once. */
  lemma WrapOnce(x: nat, m: nat)
    requires 0 < m && x < 2 * m
    ensures x % m == if x < m then x else x - m
  {
    var q, r := x / m, x % m;
    assert x == q * m + r && 0 <= r < m;
    if q >= 2 {
      MultiplyMonotone(2, q, m);
    }
    if x >= m && q == 0 {
      assert false;
    }
  }

  /** Dividing by `a` and then by `b` brackets `x` between consecutive
      multiples of `a * b`. */
  lemma DividedTwice(x: nat, a: nat, b: nat)
    requires 0 < a && 0 < b
    ensures (x / a / b) * b * a <= x < (x / a / b + 1) * b * a
  {
    var q1 := x / a;
    var q2 := q1 / b;
    DivisionBrackets(x, a);
    DivisionBrackets(q1, b);
    MultiplyMonotone(q2 * b, q1, a);
    MultiplyMonotone(q1 + 1, (q2 + 1) * b, a);
  }

  /** `x / a` is the number of whole `a`s in `x`. */
  lemma DivisionBrackets(x: nat, a: nat)
    requires 0 < a
    ensures (x / a) * a <= x < (x / a + 1) * a
  {
    var q, r := x / a, x % a;
    assert x == q * a + r && 0 <= r < a;
    assert (q + 1) * a == q * a + a;
  }

  lemma MultiplyMonotone(x: nat, y: nat, a: nat)
    requires x <= y
    ensures x * a <= y * a
  {
  }

  /** The derivation as port.c performs it, updating `ulCompareMatch` in
      place with `/=` and `-=` on a `uint32_t`. */
  method CompareMatch(clock: nat, rate: nat) returns (compareMatch: nat)
    requires clock < U32 && 0 < rate < U32
    ensures compareMatch == CompareValue(clock, rate)
  {
    compareMatch := clock / rate;
    compareMatch := compareMatch / ClockPrescaler;
    compareMatch := (compareMatch + U32 - 1) % U32;
  }

  /** With the Arduino's 16 MHz clock and a 1000 Hz tick, timer 2 compares
      at 249: 250 counts of 64 cycles, exactly 16000 cycles per tick. */
  lemma CompareValueFor16MHz()
    ensures CompareValue(16_000_000, 1000) == 249
    ensures (CompareValue(16_000_000, 1000) + 1) * ClockPrescaler * 1000 == 16_000_000
  {
  }

  /** `after` is `before` with the bits of `mask` set and every other bit
      kept: the effect of `reg |= mask`. */
  predicate SetsBits(before: Byte, after: Byte, mask: Byte)
  {
    forall k :: 0 <= k < 8 ==> Bit(after, k) == (Bit(mask, k) || Bit(before, k))
  }

  /** `x | m` sets the bits of `m` and keeps the others. */
  lemma OrSetsBits(x: Byte, m: Byte)
    ensures SetsBits(x, BitOr(x, m), m)
  {
    forall k | 0 <= k < 8
      ensures Bit(BitOr(x, m), k) == (Bit(m, k) || Bit(x, k))
    {
      OrBitsBit(x, m, 8, k);
    }
  }

  /** OR-ing in zero changes nothing. */
  lemma OrZero(x: Byte)
    ensures BitOr(x, 0) == x
  {
    forall k | 0 <= k < 8
      ensures Bit(BitOr(x, 0), k) == Bit(x, k)
    {
      OrBitsBit(x, 0, 8, k);
      ZeroHasNoBits(k);
    }
    assert Pow2(8) == 256;
    SameBitsSameValue(BitOr(x, 0), x, 8);
  }

  /** `(uint8_t) (v << k)`. */
  function ShiftLeft(v: Byte, k: nat): Byte
  {
    (v * Pow2(k)) % 256
  }

  /** The I/O registers after timer 2 is set up from `regs`. */
  function Timer2Setup(regs: map<IoRegister, Byte>, clock: nat, rate: nat): map<IoRegister, Byte>
    requires forall r: IoRegister :: r in regs
    requires clock < U32 && 0 < rate < U32
  {
    regs[OCR2A := Lo(CompareValue(clock, rate))]
        [TCCR2A := BitOr(regs[TCCR2A], Timer2ClearCounterOnMatch)]
        [TCCR2B := BitOr(regs[TCCR2B], Timer2Prescale64)]
        [TIMSK2 := BitOr(regs[TIMSK2], Timer2CompareMatchAInterruptEnable)]
  }

  /** Setting up timer 2 puts the low byte of the compare value into OCR2A,
      sets only the CTC bit of TCCR2A, the clock/64 bit of TCCR2B and the
      compare-match-A interrupt bit of TIMSK2, keeping their other bits. */
  lemma Timer2SetupSetsOnlyItsBits(regs: map<IoRegister, Byte>, clock: nat, rate: nat)
    requires forall r: IoRegister :: r in regs
    requires clock < U32 && 0 < rate < U32
    ensures Timer2Setup(regs, clock, rate)[OCR2A] == CompareValue(clock, rate) % 256
    ensures SetsBits(regs[TCCR2A], Timer2Setup(regs, clock, rate)[TCCR2A], 0x02)
    ensures SetsBits(regs[TCCR2B], Timer2Setup(regs, clock, rate)[TCCR2B], 0x04)
    ensures SetsBits(regs[TIMSK2], Timer2Setup(regs, clock, rate)[TIMSK2], 0x02)
  {
    OrSetsBits(regs[TCCR2A], 0x02);
    OrSetsBits(regs[TCCR2B], 0x04);
    OrSetsBits(regs[TIMSK2], 0x02);
  }

  /** Setting up timer 2 leaves timer 3 and the watchdog alone. */
  lemma Timer2SetupKeepsOthers(regs: map<IoRegister, Byte>, clock: nat, rate: nat, r: IoRegister)
    requires forall r: IoRegister :: r in regs
    requires clock < U32 && 0 < rate < U32
    requires r !in {OCR2A, TCCR2A, TCCR2B, TIMSK2}
    ensures Timer2Setup(regs, clock, rate)[r] == regs[r]
  {
  }

  /** The I/O registers after timer 3 is set up from `regs`. */
  function Timer3Setup(regs: map<IoRegister, Byte>, clock: nat, rate: nat): map<IoRegister, Byte>
    requires forall r: IoRegister :: r in regs
    requires clock < U32 && 0 < rate < U32
  {
    regs[OCR3AH := Lo(CompareValue(clock, rate) / 256)]
        [OCR3AL := Lo(CompareValue(clock, rate))]
        [TCCR3B := BitOr(Timer3ClearCounterOnMatch, Timer3Prescale64)]
        [TIMSK3 := BitOr(regs[TIMSK3], Timer3CompareMatchAInterruptEnable)]
  }

  /** Setting up timer 3 puts the low 16 bits of the compare value into
      OCR3AH:OCR3AL, assigns TCCR3B exactly CTC with clock/64 (0x0B) and
      sets only the compare-match-A interrupt bit of TIMSK3. */
  lemma Timer3SetupSetsOnlyItsBits(regs: map<IoRegister, Byte>, clock: nat, rate: nat)
    requires forall r: IoRegister :: r in regs
    requires clock < U32 && 0 < rate < U32
    ensures Timer3Setup(regs, clock, rate)[OCR3AH] as int * 256 + Timer3Setup(regs, clock, rate)[OCR3AL] as int
            == CompareValue(clock, rate) % 0x1_0000
    ensures Timer3Setup(regs, clock, rate)[TCCR3B] == 0x0B
    ensures SetsBits(regs[TIMSK3], Timer3Setup(regs, clock, rate)[TIMSK3], 0x02)
  {
    var v := CompareValue(clock, rate);
    var after := Timer3Setup(regs, clock, rate);
    assert after[OCR3AL] == v % 256;
    assert after[OCR3AH] == (v / 256) % 256;
    HighLowBytes(v);
    Timer3ControlValue();
    OrSetsBits(regs[TIMSK3], 0x02);
  }

  /** The high and low bytes of `v` make up its low 16 bits. */
  lemma HighLowBytes(v: nat)
    ensures (v / 256) % 256 * 256 + v % 256 == v % 0x1_0000
  {
    var q := v / 0x1_0000;
    var w := v % 0x1_0000;
    assert v == q * 0x1_0000 + w;
    assert v / 256 == q * 256 + w / 256;
    assert (v / 256) % 256 == w / 256;
  }

  /** Setting up timer 3 leaves timer 2 and the watchdog alone. */
  lemma Timer3SetupKeepsOthers(regs: map<IoRegister, Byte>, clock: nat, rate: nat, r: IoRegister)
    requires forall r: IoRegister :: r in regs
    requires clock < U32 && 0 < rate < U32
    requires r !in {OCR3AH, OCR3AL, TCCR3B, TIMSK3}
    ensures Timer3Setup(regs, clock, rate)[r] == regs[r]
  {
  }

  /** TCCR3B's value: WGM32 (bit 3) for CTC mode, CS31 and CS30 (bits 1
      and 0) for clock/64. */
  lemma Timer3ControlValue()
    ensures BitOr(Timer3ClearCounterOnMatch, Timer3Prescale64) == 0x0B
  {
    assert OrBits(0, 0, 4) == 0;
    assert OrBits(1, 0, 5) == 1;
    assert OrBits(2, 0, 6) == 2;
    assert OrBits(4, 1, 7) == 5;
    assert OrBits(8, 3, 8) == 0x0B;
  }

  /** `(1 << WDIE) | (0 << WDE) | (0 << WDP2) | (0 << WDP1) | (0 << WDP0)`:
      the watchdog control word. */
  const WatchdogControl: Byte :=
    BitOr(BitOr(BitOr(BitOr(ShiftLeft(1, WDIE), ShiftLeft(0, WDE)), ShiftLeft(0, WDP2)), ShiftLeft(0, WDP1)),
          ShiftLeft(0, WDP0))

  /** The I/O registers of the timers and the watchdog, and the order in
      which the set-up routines wrote them. */
  class IoSpace {
    var reg: map<IoRegister, Byte>
    var written: seq<IoRegister>

    ghost predicate Valid()
      reads this
    {
      forall r: IoRegister :: r in reg
    }

    constructor (initial: map<IoRegister, Byte>)
      requires forall r: IoRegister :: r in initial
      ensures Valid() && reg == initial && written == []
    {
      reg := initial;
      written := [];
    }

    function Read(r: IoRegister): Byte
      reads this
      requires Valid()
    {
      reg[r]
    }

    method Write(r: IoRegister, v: Byte)
      requires Valid()
      modifies this
      ensures Valid()
      ensures reg == old(reg)[r := v] && written == old(written) + [r]
    {
      reg := reg[r := v];
      written := written + [r];
    }
  }

  /** prvSetupTimerInterrupt for the watchdog: one write of the control word. */
  method SetupWatchdog(io: IoSpace)
    requires io.Valid()
    modifies io
    ensures io.Valid()
    ensures io.reg == TickRegisters(old(io.reg), WatchdogTick, 0, 0) && io.written == old(io.written) + [WDTCSR]
  {
    io.Write(WDTCSR, WatchdogControl);
  }

  /** prvSetupTimerInterrupt for timer 2. */
  method SetupTimer2(io: IoSpace, clock: nat, rate: nat)
    requires io.Valid() && clock < U32 && 0 < rate < U32
    modifies io
    ensures io.Valid()
    ensures io.reg == Timer2Setup(old(io.reg), clock, rate)
    ensures io.written == old(io.written) + [OCR2A, TCCR2A, TCCR2B, TIMSK2]
  {
    var compareMatch := CompareMatch(clock, rate);
    var byte := Lo(compareMatch);                       // (uint8_t) (ulCompareMatch & 0xff)
    io.Write(OCR2A, byte);
    byte := Timer2ClearCounterOnMatch;
    io.Write(TCCR2A, BitOr(io.Read(TCCR2A), byte));     // TCCR2A |= ucByte
    byte := Timer2Prescale64;
    io.Write(TCCR2B, BitOr(io.Read(TCCR2B), byte));     // TCCR2B |= ucByte
    byte := io.Read(TIMSK2);
    byte := BitOr(byte, Timer2CompareMatchAInterruptEnable);
    io.Write(TIMSK2, byte);
  }

  /** prvSetupTimerInterrupt for timer 3: the 16-bit OCR3A is written high
      byte first, as the 16-bit register access protocol requires. */
  method SetupTimer3(io: IoSpace, clock: nat, rate: nat)
    requires io.Valid() && clock < U32 && 0 < rate < U32
    modifies io
    ensures io.Valid()
    ensures io.reg == Timer3Setup(old(io.reg), clock, rate)
    ensures io.written == old(io.written) + [OCR3AH, OCR3AL, TCCR3B, TIMSK3]
  {
    var compareMatch := CompareMatch(clock, rate);
    var lowByte := Lo(compareMatch);                    // (uint8_t) (ulCompareMatch & 0xff)
    compareMatch := compareMatch / 256;                 // ulCompareMatch >>= 8
    var highByte := Lo(compareMatch);
    io.Write(OCR3AH, highByte);
    io.Write(OCR3AL, lowByte);
    lowByte := BitOr(Timer3ClearCounterOnMatch, Timer3Prescale64);
    io.Write(TCCR3B, lowByte);
    lowByte := io.Read(TIMSK3);
    lowByte := BitOr(lowByte, Timer3CompareMatchAInterruptEnable);
    io.Write(TIMSK3, lowByte);
  }

  /** Whether the set-up routine for `source` can run: the timers divide by
      the tick rate in `uint32_t`; the watchdog uses neither value. */
  predicate SetupArguments(source: TickSource, clock: nat, rate: nat)
  {
    source != WatchdogTick ==> clock < U32 && 0 < rate < U32
  }

  /** The I/O registers after the tick source has been set up from `regs`. */
  function TickRegisters(regs: map<IoRegister, Byte>, source: TickSource, clock: nat, rate: nat)
    : map<IoRegister, Byte>
    requires forall r: IoRegister :: r in regs
    requires SetupArguments(source, clock, rate)
  {
    match source
    case WatchdogTick => regs[WDTCSR := WatchdogControl]
    case Timer2Tick => Timer2Setup(regs, clock, rate)
    case Timer3Tick => Timer3Setup(regs, clock, rate)
  }

  /** The registers the set-up routine for `source` writes, in order. */
  function TickWrites(source: TickSource): seq<IoRegister>
  {
    match source
    case WatchdogTick => [WDTCSR]
    case Timer2Tick => [OCR2A, TCCR2A, TCCR2B, TIMSK2]
    case Timer3Tick => [OCR3AH, OCR3AL, TCCR3B, TIMSK3]
  }

  /** The watchdog control word has WDIE set and WDE, WDP2, WDP1 and WDP0
      clear: an interrupt instead of a reset, at the shortest (15 ms)
      timeout, and nothing else in the I/O space changes. */
  lemma WatchdogInterruptAtShortestTimeout(regs: map<IoRegister, Byte>, r: IoRegister)
    requires forall r: IoRegister :: r in regs
    ensures var after := TickRegisters(regs, WatchdogTick, 0, 0);
            && after[WDTCSR] == 0x40
            && Bit(after[WDTCSR], WDIE)
            && !Bit(after[WDTCSR], WDE) && !Bit(after[WDTCSR], WDP2)
            && !Bit(after[WDTCSR], WDP1) && !Bit(after[WDTCSR], WDP0)
            && (r != WDTCSR ==> after[r] == regs[r])
  {
    WatchdogControlValue();
  }

  /** The zero terms of the watchdog control word contribute nothing. */
  lemma WatchdogControlValue()
    ensures WatchdogControl == 0x40
  {
    assert ShiftLeft(1, WDIE) == 0x40;
    assert ShiftLeft(0, WDE) == 0 && ShiftLeft(0, WDP2) == 0 && ShiftLeft(0, WDP1) == 0 && ShiftLeft(0, WDP0) == 0;
    OrZero(0x40);
  }

  /** prvSetupTimerInterrupt as compiled for the chosen tick source. */
  method SetupTimerInterrupt(io: IoSpace, source: TickSource, clock: nat, rate: nat)
    requires io.Valid() && SetupArguments(source, clock, rate)
    modifies io
    ensures io.Valid()
    ensures io.reg == TickRegisters(old(io.reg), source, clock, rate)
    ensures io.written == old(io.written) + TickWrites(source)
  {
    match source
    case WatchdogTick => SetupWatchdog(io);
    case Timer2Tick => SetupTimer2(io, clock, rate);
    case Timer3Tick => SetupTimer3(io, clock, rate);
  }
}
