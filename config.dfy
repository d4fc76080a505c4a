// The build-time choices of FreeRTOSConfig.h that the port layer depends on:
// which interrupt drives the tick on which board, the resulting tick rate,
// the heap size per MCU family, and the default values of the knobs.  The
// preprocessor chain is a pure selection: a configuration either yields a
// tick setup or stops the build with one of two `#error` messages.

module Config {

  /** The MCU the build targets (the `__AVR_<part>__` macro the compiler
      defines); `OtherMcu` stands for any part the header does not name. */
  datatype Mcu =
    | ATmega640 | ATmega1280 | ATmega1281 | ATmega2560 | ATmega2561
    | ATmega328P | ATmega168 | ATmega8
    | ATmega32U4 | ATmega16U4
    | OtherMcu

  /** Arduino Mega type: also the parts on which the port saves and restores
      RAMPZ and EIND and writes a three-byte entry address.  Of these only
      the ATmega2560 and 2561 have a 22-bit program counter. */
  predicate MegaFamily(mcu: Mcu)
  {
    mcu.ATmega640? || mcu.ATmega1280? || mcu.ATmega1281? || mcu.ATmega2560? || mcu.ATmega2561?
  }

  /** Arduino Uno and (Pro) Mini type: no timer 3. */
  predicate UnoFamily(mcu: Mcu)
  {
    mcu.ATmega328P? || mcu.ATmega168? || mcu.ATmega8?
  }

  /** Arduino Leonardo type: no timer 2. */
  predicate LeonardoFamily(mcu: Mcu)
  {
    mcu.ATmega32U4? || mcu.ATmega16U4?
  }

  datatype Option<T> = None | Some(value: T)

  datatype Result<T, E> = Ok(value: T) | Err(error: E)

  /** The configuration knobs the port reads. */
  datatype Knobs = Knobs(
    useWatchdogTick: int,      // configUSE_WATCHDOG_TICK
    mcuTimer: int,             // configMCU_TIMER
    usePreemption: int,        // configUSE_PREEMPTION
    minimalStackSize: int,     // configMINIMAL_STACK_SIZE
    timerTaskStackDepth: int)  // configTIMER_TASK_STACK_DEPTH

  /** configMINIMAL_STACK_SIZE as shipped, in stack words. */
  const MinimalStackSize: int := 112

  /** The values the header ships with; the timer task's stack depth is
      defined as the minimal stack size. */
  const Defaults: Knobs := Knobs(0, 2, 1, MinimalStackSize, MinimalStackSize)

  /** The interrupt that generates the tick. */
  datatype TickSource = WatchdogTick | Timer2Tick | Timer3Tick

  datatype TickSetup = TickSetup(source: TickSource, rateHz: nat)

  /** Why the build stops: "Timer 0 and 1 are used by the Arduino core
      library", or "The selected timer is invalid or not available for this
      board type". */
  datatype BuildError = TimerReservedByCore | TimerUnavailable

  /** `(TickType_t) 1000 / 15`: the watchdog's smallest timeout is 15 ms. */
  const WatchdogTickRateHz: nat := 1000 / 15

  /** The tick rate with timer 2 or timer 3. */
  const TimerTickRateHz: nat := 1000

  /** Whether the board has timer `n` available for the tick. */
  predicate TimerAvailable(mcu: Mcu, n: int)
  {
    (n == 2 && !LeonardoFamily(mcu)) || (n == 3 && !UnoFamily(mcu))
  }

  /** The `#if` chain that checks the timer configuration and sets
      configTICK_RATE_HZ.  The watchdog wins whatever the timer knob says;
      otherwise timer 2 and timer 3 are accepted where the board has them,
      timers 0 and 1 are refused because the Arduino core uses them, and
      anything else is refused as unavailable. */
  function TickSelection(mcu: Mcu, useWatchdogTick: int, mcuTimer: int): (r: Result<TickSetup, BuildError>)
    ensures r.Ok? && r.value.source == WatchdogTick <==> useWatchdogTick == 1
    ensures r.Ok? && r.value.source == Timer2Tick <==> useWatchdogTick != 1 && mcuTimer == 2 && TimerAvailable(mcu, 2)
    ensures r.Ok? && r.value.source == Timer3Tick <==> useWatchdogTick != 1 && mcuTimer == 3 && TimerAvailable(mcu, 3)
    ensures r.Ok? <==> useWatchdogTick == 1 || TimerAvailable(mcu, mcuTimer)
    ensures r.Ok? ==> r.value.rateHz == if r.value.source == WatchdogTick then 66 else 1000
    ensures r == Err(TimerReservedByCore) <==> useWatchdogTick != 1 && (mcuTimer == 0 || mcuTimer == 1)
  {
    if useWatchdogTick == 1 then Ok(TickSetup(WatchdogTick, WatchdogTickRateHz))
    else if mcuTimer == 2 && !LeonardoFamily(mcu) then Ok(TickSetup(Timer2Tick, TimerTickRateHz))
    else if mcuTimer == 3 && !UnoFamily(mcu) then Ok(TickSetup(Timer3Tick, TimerTickRateHz))
    else if mcuTimer == 0 || mcuTimer == 1 then Err(TimerReservedByCore)
    else Err(TimerUnavailable)
  }

  /** configTOTAL_HEAP_SIZE per MCU family; not defined for other parts. */
  function HeapSize(mcu: Mcu): (h: Option<nat>)
    ensures h.Some? <==> MegaFamily(mcu) || UnoFamily(mcu) || LeonardoFamily(mcu)
    ensures h.Some? ==> h.value == if MegaFamily(mcu) then 3072 else if UnoFamily(mcu) then 1024 else 1280
  {
    if MegaFamily(mcu) then Some(3072)
    else if UnoFamily(mcu) then Some(1024)
    else if LeonardoFamily(mcu) then Some(1280)
    else None
  }

  /** The families are disjoint, so each part gets one heap size. */
  lemma FamiliesDisjoint(mcu: Mcu)
    ensures !(MegaFamily(mcu) && UnoFamily(mcu))
    ensures !(MegaFamily(mcu) && LeonardoFamily(mcu))
    ensures !(UnoFamily(mcu) && LeonardoFamily(mcu))
  {
  }

  /** Which tick set-up routine and ISR port.c compiles in: the watchdog when
      configUSE_WATCHDOG_TICK is 1, else timer 2 or timer 3 by
      configMCU_TIMER, else none. */
  function PortTickSource(useWatchdogTick: int, mcuTimer: int): (s: Option<TickSource>)
    ensures s.Some? <==> useWatchdogTick == 1 || mcuTimer == 2 || mcuTimer == 3
  {
    if useWatchdogTick == 1 then Some(WatchdogTick)
    else if mcuTimer == 2 then Some(Timer2Tick)
    else if mcuTimer == 3 then Some(Timer3Tick)
    else None
  }

  /** Whenever the header accepts a configuration, port.c compiles in the
      set-up routine and ISR of the very interrupt the header chose the tick
      rate for. */
  lemma PortAgreesWithHeader(mcu: Mcu, useWatchdogTick: int, mcuTimer: int)
    requires TickSelection(mcu, useWatchdogTick, mcuTimer).Ok?
    ensures PortTickSource(useWatchdogTick, mcuTimer) == Some(TickSelection(mcu, useWatchdogTick, mcuTimer).value.source)
  {
  }

  /** With the shipped defaults the tick comes from timer 2 at 1000 Hz on the
      Mega and Uno types, and the build stops on the Leonardo type. */
  lemma DefaultsSelectTimer2(mcu: Mcu)
    ensures !LeonardoFamily(mcu) ==>
              TickSelection(mcu, Defaults.useWatchdogTick, Defaults.mcuTimer) == Ok(TickSetup(Timer2Tick, 1000))
    ensures LeonardoFamily(mcu) ==>
              TickSelection(mcu, Defaults.useWatchdogTick, Defaults.mcuTimer) == Err(TimerUnavailable)
  {
  }

  /** The shipped defaults: no watchdog tick, timer 2, preemption on, a
      minimal stack of 112 and a timer-task stack of the same depth. */
  lemma DefaultKnobs()
    ensures Defaults.useWatchdogTick == 0 && Defaults.mcuTimer == 2 && Defaults.usePreemption == 1
    ensures Defaults.minimalStackSize == 112 && Defaults.timerTaskStackDepth == Defaults.minimalStackSize
  {
  }
}
