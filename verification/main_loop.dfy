/** One pass of the `while(1)` loop in `main`: drain the tick flag, advance
    the interval counters, poll the keypad every 8 ticks while no key is
    latched, and once every 40 ticks update the display, arm the LED and kick
    the task machine. The keypad scan and the display call belong to the
    display library and appear here only as an input and an output. */
module MainLoop {
  import opened MachineInts
  import opened Wrappers
  import opened TaskMachine
  import opened LedIndicator

  /** Display options passed to every `tm1637output` call. */
  const DecimalPos: u8 := 99
  const Round: u8 := 0
  const LdgZeroB: u8 := 0
  const RightShift: u8 := 0
  /** `BLANKON`: the leading-zero option used when showing a key number. */
  const BlankOn: u8 := 1

  /** The seconds count starts here and wraps past this bound. */
  const InitialCount: u32 := 999999
  const CountLimit: u32 := 999999
  const CountModulus: nat := 1_000_000

  /** Ticks per key poll and per one-second window. */
  const KeyPollTicks: u8 := 8
  const WindowTicks: u8 := 40
  /** `LEDonTime` set when the window arms the LED. */
  const LedOnTicks: u8 := 1

  /** The loop's variables and the port G latch. `ledCounter` and
      `ledOnTime` are `LEDcounter` and `LEDonTime`. */
  datatype LoopState = LoopState(
    timer1Flag: bool,
    counts25ms: u8,
    keyReadCounter: u8,
    keyPressed: u8,
    taskStatus: u8,
    ledCounter: u8,
    ledOnTime: u8,
    outputInteger: u32,
    latchG: bv8)

  /** The arguments of one `tm1637output(value, decimalPos, round, blank, rightShift)` call. */
  datatype DisplayRequest = DisplayRequest(value: u32, decimalPos: u8, round: u8, blank: u8, rightShift: u8)

  /** What a pass does to the outside world: whether it called `keyscan()`,
      and the display update it requested, if any. */
  datatype PassOutput = PassOutput(scanned: bool, display: Option<DisplayRequest>)

  datatype Step = Step(state: LoopState, out: PassOutput)

  /** The display update that shows the seconds count. */
  function CountRequest(n: u32): DisplayRequest
  {
    DisplayRequest(n, DecimalPos, Round, LdgZeroB, RightShift)
  }

  /** The display update that shows a key number, with leading zeros blanked. */
  function KeyRequest(key: u8): DisplayRequest
  {
    DisplayRequest(key, DecimalPos, Round, BlankOn, RightShift)
  }

  function TickCount(tick: bool): nat
  {
    if tick then 1 else 0
  }

  /** `outputInteger ++` followed by the reset above 999999: the displayed
      count advances modulo one million and never leaves [0, 999999]. */
  function NextCount(n: u32): (r: u32)
    ensures r <= CountLimit
    ensures n <= CountLimit ==> r == (n + 1) % CountModulus
    ensures n > CountLimit ==> r == 0
  {
    var m := Inc32(n);
    if m > CountLimit then 0 else m
  }

  /** Draining the tick flag: a pending tick advances the three interval
      counters by one each (as `uint8_t`s) and is cleared; with no tick
      pending nothing changes. */
  function Drain(s: LoopState): (r: LoopState)
    ensures !r.timer1Flag
    ensures s.timer1Flag ==> && r.counts25ms == Inc8(s.counts25ms)
                             && r.keyReadCounter == Inc8(s.keyReadCounter)
                             && r.ledCounter == Inc8(s.ledCounter)
    ensures !s.timer1Flag ==> r == s
    ensures r.(counts25ms := s.counts25ms, keyReadCounter := s.keyReadCounter,
               ledCounter := s.ledCounter, timer1Flag := s.timer1Flag) == s
  {
    if s.timer1Flag then
      s.(counts25ms := Inc8(s.counts25ms),
         keyReadCounter := Inc8(s.keyReadCounter),
         ledCounter := Inc8(s.ledCounter),
         timer1Flag := false)
    else
      s
  }

  datatype Polled = Polled(state: LoopState, scanned: bool)

  /** The keypad poll: `keyscan()` is consulted exactly when at least 8 ticks
      have been counted and no key is latched; its result is latched and the
      poll counter restarts. Otherwise nothing changes. */
  function Poll(s: LoopState, scan: u8): (p: Polled)
    ensures p.scanned <==> s.keyReadCounter >= KeyPollTicks && s.keyPressed == 0
    ensures p.scanned ==> p.state == s.(keyPressed := scan, keyReadCounter := 0)
    ensures !p.scanned ==> p.state == s
  {
    if s.keyReadCounter >= KeyPollTicks && s.keyPressed < 1 then
      Polled(s.(keyPressed := scan, keyReadCounter := 0), true)
    else
      Polled(s, false)
  }

  datatype Windowed = Windowed(state: LoopState, display: Option<DisplayRequest>)

  /** The one-second window. It fires exactly when 40 ticks have been counted:
      it restarts the window, kicks the task, arms the LED for `LedOnTicks`
      and advances the seconds count; it then shows the count, or, if a key is
      latched, the key number with blanking on, releasing the key and
      restarting the poll counter. Without firing it changes nothing. */
  function Window(s: LoopState): (w: Windowed)
    ensures w.display.Some? <==> s.counts25ms >= WindowTicks
    ensures w.display.Some? ==>
      && w.state.counts25ms == 0
      && w.state.taskStatus == TaskStart
      && w.state.ledCounter == 0
      && w.state.ledOnTime == LedOnTicks
      && w.state.outputInteger == NextCount(s.outputInteger)
      && w.state.keyPressed == 0
      && w.state.latchG == s.latchG
      && w.state.timer1Flag == s.timer1Flag
    ensures w.display.Some? && s.keyPressed == 0 ==>
      && w.display.value == CountRequest(w.state.outputInteger)
      && w.state.keyReadCounter == s.keyReadCounter
    ensures w.display.Some? && s.keyPressed != 0 ==>
      && w.display.value == KeyRequest(s.keyPressed)
      && w.state.keyReadCounter == 0
    ensures w.display.None? ==> w.state == s
  {
    if s.counts25ms >= WindowTicks then
      var n := NextCount(s.outputInteger);
      var t := s.(counts25ms := 0, taskStatus := TaskStart, ledCounter := 0,
                  ledOnTime := LedOnTicks, outputInteger := n);
      if s.keyPressed < 1 then
        Windowed(t, Some(CountRequest(n)))
      else
        Windowed(t.(keyPressed := 0, keyReadCounter := 0), Some(KeyRequest(s.keyPressed)))
    else
      Windowed(s, None)
  }

  /** The call `if (LEDonTime) LEDflash();` at the end of the pass. */
  function LedStage(s: LoopState): (r: LoopState)
    ensures r.latchG & !Led1On == s.latchG & !Led1On
    ensures s.ledOnTime == 0 ==> r == s
    ensures s.ledOnTime != 0 ==> (LedLit(r.latchG) <==> s.ledCounter <= s.ledOnTime)
    ensures r.ledOnTime == 0 || r.ledOnTime == s.ledOnTime
    ensures r.(latchG := s.latchG, ledOnTime := s.ledOnTime) == s
  {
    if s.ledOnTime != 0 then
      var f := LedFlash(s.latchG, s.ledCounter, s.ledOnTime);
      s.(latchG := f.latch, ledOnTime := f.onTime)
    else
      s
  }

  /** The state the loop keeps between passes. The interval counters stay
      far from the `uint8_t` limit, the LED counter runs in step with the
      window counter, at most one key is latched and then only within a
      window, the task machine is idle, the LED is lit exactly while armed,
      and the seconds count is a six-digit number. */
  ghost predicate Inv(s: LoopState)
  {
    && !s.timer1Flag
    && s.counts25ms < WindowTicks
    && s.ledCounter == s.counts25ms
    && (s.keyPressed == 0 ==> s.keyReadCounter < KeyPollTicks)
    && (s.keyPressed != 0 ==> s.keyReadCounter <= s.counts25ms)
    && s.taskStatus == NoTask
    && (s.ledOnTime == 0 || s.ledOnTime == LedOnTicks)
    && (s.ledOnTime == LedOnTicks ==> s.ledCounter <= LedOnTicks)
    && (LedLit(s.latchG) <==> s.ledOnTime == LedOnTicks)
    && s.outputInteger <= CountLimit
  }

  /** One pass of the main loop. `tick` says whether `ISRhi` raised the flag
      since the previous pass drained it; `scan` is what `keyscan()` would
      return if the pass consults it. */
  function Pass(s: LoopState, tick: bool, scan: u8): (r: Step)
    // the flag is always drained
    ensures !r.state.timer1Flag
    // only the LED bit of the latch is ever written
    ensures r.state.latchG & !Led1On == s.latchG & !Led1On
    // a latched key is never re-read
    ensures r.out.scanned ==> s.keyPressed == 0
    // every kicked or named task stage is back to idle by the end of the pass
    ensures s.taskStatus <= TaskEnd ==> r.state.taskStatus == NoTask
    // the count moves on exactly when the window fires, and stays six-digit
    ensures r.out.display.Some? ==> r.state.outputInteger == NextCount(s.outputInteger)
    ensures r.out.display.None? ==> r.state.outputInteger == s.outputInteger
  {
    var d := Drain(s.(timer1Flag := s.timer1Flag || tick));
    var p := Poll(d, scan);
    var w := Window(p.state);
    var t := w.state.(taskStatus := Dispatch(w.state.taskStatus));
    Step(LedStage(t), PassOutput(p.scanned, w.display))
  }

  /** What a window pass leaves behind: the display shows the key read in
      this or an earlier pass if there is one, else the advanced count; the
      LED is armed, lit and counting from zero; and a scan always leaves the
      poll counter at zero. */
  lemma {:induction false} PassWindowEffects(s: LoopState, tick: bool, scan: u8)
    ensures var r := Pass(s, tick, scan);
      r.out.display.Some? ==>
        r.out.display.value ==
          (var key := if r.out.scanned then scan else s.keyPressed;
           if key == 0 then CountRequest(r.state.outputInteger) else KeyRequest(key))
    ensures var r := Pass(s, tick, scan);
      r.out.display.Some? ==>
        && r.state.counts25ms == 0 && r.state.ledCounter == 0
        && r.state.ledOnTime == LedOnTicks && LedLit(r.state.latchG)
        && r.state.keyPressed == 0
    ensures var r := Pass(s, tick, scan);
      r.out.scanned ==> r.state.keyReadCounter == 0
  {
  }

  /** From the invariant, the window counter advances by the tick modulo 40,
      so the window fires exactly on the 40th tick, and the LED counter keeps
      in step with it. */
  lemma {:induction false} PassWindowCounter(s: LoopState, tick: bool, scan: u8)
    requires Inv(s)
    ensures var r := Pass(s, tick, scan);
      && r.state.counts25ms == (s.counts25ms + TickCount(tick)) % WindowTicks
      && r.state.ledCounter == r.state.counts25ms
    ensures Pass(s, tick, scan).out.display.Some? <==> s.counts25ms + TickCount(tick) == WindowTicks
  {
  }

  /** From the invariant, `keyscan()` is consulted exactly when 8 ticks have
      gathered with no key latched; without a scan the poll counter grows by
      at most the tick; and the key part of the invariant is kept. */
  lemma {:induction false} PassScanGate(s: LoopState, tick: bool, scan: u8)
    requires Inv(s)
    ensures Pass(s, tick, scan).out.scanned <==>
      s.keyPressed == 0 && s.keyReadCounter + TickCount(tick) >= KeyPollTicks
    ensures !Pass(s, tick, scan).out.scanned ==>
      Pass(s, tick, scan).state.keyReadCounter <= s.keyReadCounter + TickCount(tick)
    ensures var r := Pass(s, tick, scan).state;
      && (r.keyPressed == 0 ==> r.keyReadCounter < KeyPollTicks)
      && (r.keyPressed != 0 ==> r.keyReadCounter <= r.counts25ms)
  {
  }

  /** From the invariant, the LED stays lit exactly while armed and an armed
      flash never outlives `LEDcounter = 1`. */
  lemma {:induction false} PassLedInv(s: LoopState, tick: bool, scan: u8)
    requires Inv(s)
    ensures var r := Pass(s, tick, scan).state;
      && (r.ledOnTime == 0 || r.ledOnTime == LedOnTicks)
      && (r.ledOnTime == LedOnTicks ==> r.ledCounter <= LedOnTicks)
      && (LedLit(r.latchG) <==> r.ledOnTime == LedOnTicks)
  {
    var p := Poll(Drain(s.(timer1Flag := s.timer1Flag || tick)), scan);
    var w := Window(p.state);
    LedStageKeepsInv(w.state.(taskStatus := Dispatch(w.state.taskStatus)));
  }

  /** What a pass does from a state satisfying the invariant: it keeps the
      invariant, the window counter advances by the tick modulo 40 so the
      window fires exactly on the 40th tick, and `keyscan()` is consulted
      exactly when 8 ticks have gathered with no key latched. */
  lemma {:induction false} PassKeepsInv(s: LoopState, tick: bool, scan: u8)
    requires Inv(s)
    ensures Inv(Pass(s, tick, scan).state)
    ensures Pass(s, tick, scan).state.counts25ms == (s.counts25ms + TickCount(tick)) % WindowTicks
    ensures Pass(s, tick, scan).out.display.Some? <==> s.counts25ms + TickCount(tick) == WindowTicks
    ensures Pass(s, tick, scan).out.scanned <==>
      s.keyPressed == 0 && s.keyReadCounter + TickCount(tick) >= KeyPollTicks
    ensures !Pass(s, tick, scan).out.scanned ==>
      Pass(s, tick, scan).state.keyReadCounter <= s.keyReadCounter + TickCount(tick)
  {
    PassWindowCounter(s, tick, scan);
    PassScanGate(s, tick, scan);
    PassLedInv(s, tick, scan);
  }

  /** The LED part of the invariant survives `LEDflash`: an armed flash whose
      counter has passed one tick switches the LED off and disarms, and a lit
      LED is always an armed one. */
  lemma {:induction false} LedStageKeepsInv(t: LoopState)
    requires t.ledOnTime == 0 || t.ledOnTime == LedOnTicks
    requires t.ledOnTime == LedOnTicks ==> t.ledCounter <= LedOnTicks + 1
    requires t.ledOnTime == 0 ==> !LedLit(t.latchG)
    ensures LedStage(t).ledOnTime == 0 || LedStage(t).ledOnTime == LedOnTicks
    ensures LedStage(t).ledOnTime == LedOnTicks ==> LedStage(t).ledCounter <= LedOnTicks
    ensures LedLit(LedStage(t).latchG) <==> LedStage(t).ledOnTime == LedOnTicks
  {
    var r := LedStage(t);
    if t.ledOnTime == LedOnTicks {
      if t.ledCounter <= LedOnTicks {
        assert LedLit(r.latchG) && r.ledOnTime == LedOnTicks;
      } else {
        assert !LedLit(r.latchG) && r.ledOnTime == 0;
      }
    }
  }

  datatype Boot = Boot(state: LoopState, first: DisplayRequest)

  /** `main` before the loop: all loop variables zero, the count at 999999
      (shown once before the timer starts), and the port G latch as left by
      the initialisation, which clears RG3. */
  function Start(latch: bv8): (b: Boot)
    requires !LedLit(latch)
    ensures Inv(b.state)
    ensures b.state.counts25ms == 0 && b.state.outputInteger == InitialCount
    ensures && b.state.keyReadCounter == 0 && b.state.keyPressed == 0
            && b.state.ledCounter == 0 && b.state.ledOnTime == 0
            && b.state.taskStatus == NoTask && !b.state.timer1Flag
    ensures b.state.latchG == latch && !LedLit(b.state.latchG)
    ensures b.first == CountRequest(InitialCount)
  {
    Boot(LoopState(false, 0, 0, 0, NoTask, 0, 0, InitialCount, latch), CountRequest(InitialCount))
  }
}
