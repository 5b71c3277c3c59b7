# PIC18F66K90 TM1637 demo: the tick-driven main loop

This project models the main loop of the PIC18F66K90 TM1637/keypad demo in
Dafny. Timer1 interrupts every tick. Its handler `ISRhi` raises
`timer1Flag`. The `while(1)` loop in `main` then does four things:

- It drains that flag and advances three tick counters.
- Every 8 ticks, while no key is latched, it polls the keypad with `keyscan()`.
- Every 40 ticks (one second) it advances a six-digit seconds count and shows either that count or the latched key on the TM1637 display. In the same window it kicks the task state machine and arms a one-shot flash of LED1 on RG3.

The loop is modelled as a pure step function:

- `MainLoop.Pass(state, tick, scan)` takes the loop's variables and the port G latch.
- `tick` says whether the interrupt raised the flag since the previous pass.
- `scan` is the value `keyscan()` would return.
- A pass returns the new state, whether it called `keyscan()`, and the `tm1637output` request it made, if any.

The pass is built from five phases: `Drain`, `Poll`, `Window`, `TaskMachine.Dispatch` and `LedStage` (which calls `LedIndicator.LedFlash`). `Trace.Run` runs a sequence of passes. The lemmas in `Trace` state the properties that only show up across passes.

Module layout:

- `MachineInts`: `uint8_t`/`uint32_t` and the wrap-around of `++`.
- `Wrappers`: `Option`.
- `Timer1`: preload constants, tick period and the interrupt routine.
- `LedIndicator`: `LEDflash`.
- `TaskMachine`: the `taskStatus` switch.
- `MainLoop`: loop state, phases, `Pass`, the between-pass invariant `Inv`, and the state at entry to the loop.
- `Trace`: runs of passes and their properties.

The model follows the code where the comments disagree with it:

- The LED is armed with `LEDonTime = 1`. It is lit while `LEDcounter <= 1`, that is for two ticks. The comment says 500 ms.
- `LEDcounter` counts ticks, not the 50 ms increments its comment mentions.
- The task framework names four states (`NOTASK` and the three working stages `TASKSTART`, `TASKSTAGE`, `TASKEND`) as if a task could step through them over several passes. In this code every stage returns straight to `NOTASK` in the pass that kicked it.

## Model

| member | source | states |
|---|---|---|
| MachineInts.Inc8 | PIC18F66K90_TM1637.c:163-165 | `++` on a `uint8_t` counter adds one below 255 and wraps 255 to 0 |
| MachineInts.Inc32 | PIC18F66K90_TM1637.c:181 | `++` on the `uint32_t` count adds one, wrapping only at 2^32 - 1 |
| Timer1.AsWrittenTickIsLong | PIC18F66K90_TM1637.c:104-109 | the preload as written, 0x3C60, is 15456, not 15536; a tick lasts 25.04 ms, and 40 ticks last 1.6 ms more than one second |
| Timer1.IntendedPreload | PIC18F66K90_TM1637.c:104-109 | the corrected preload 0x3CB0 is 65536 - 50000; with the 1:8 prescaler and 62.5 ns cycles it gives a 25 ms tick, a 1 s window of 40 ticks and a 200 ms key poll of 8 ticks |
| Timer1.Isr | PIC18F66K90_TM1637.c:227-238 | with TMR1IF set, the handler clears TMR1IF and no other PIR1 bit, reloads the timer to the preload as written, 0x3C60, and raises the tick flag; with TMR1IF clear it changes nothing |
| Timer1.IsrIdempotent | PIC18F66K90_TM1637.c:229-236 | when a second overflow sets TMR1IF again before the loop drains the flag, the second interrupt ends in the same state as the first: the two overflows merge into one pending tick |
| LedIndicator.LedFlash | PIC18F66K90_TM1637.c:244-255 | the LED latch bit is set exactly when `LEDcounter <= LEDonTime`; otherwise it is cleared and the flash disarms with `LEDonTime = 0`; no other latch bit changes |
| TaskMachine.Dispatch | PIC18F66K90_TM1637.c:194-216 | each of the four named task states leads back to `NOTASK`; any other value matches no case and is left unchanged |
| MainLoop.NextCount | PIC18F66K90_TM1637.c:181-183 | the displayed count always stays within [0, 999999]; from inside that range it advances by one modulo 1000000, so 999999 becomes 0 |
| MainLoop.Drain | PIC18F66K90_TM1637.c:161-167 | a pending tick increments `counts25ms`, `keyReadCounter` and `LEDcounter` once each and clears the flag; with no tick pending nothing changes; no other variable is touched |
| MainLoop.Poll | PIC18F66K90_TM1637.c:169-173 | `keyscan()` is consulted if and only if `keyReadCounter >= 8` and no key is latched; the result is latched and `keyReadCounter` restarts at 0; otherwise nothing changes |
| MainLoop.Window | PIC18F66K90_TM1637.c:175-192 | the window fires if and only if `counts25ms >= 40`; it zeroes the window and LED counters, kicks the task, arms the LED and advances the count; it shows the count with `ldgZeroB`, or a latched key with `BLANKON`, in which case it also clears the key and `keyReadCounter`; without firing nothing changes |
| MainLoop.LedStage | PIC18F66K90_TM1637.c:218-219 | `LEDflash` runs only while `LEDonTime` is non-zero; it writes only the LED bit of the latch and can only clear `LEDonTime` |
| MainLoop.Pass | PIC18F66K90_TM1637.c:159-220 | every pass drains the flag, writes no latch bit other than RG3, and never re-reads a latched key; it returns any named task state to idle; the count moves on (by `NextCount`) exactly when the display is updated and otherwise stays put |
| MainLoop.PassWindowEffects | PIC18F66K90_TM1637.c:169-192 | a window pass shows the key if one is latched (read in this pass or earlier), otherwise the advanced count; after it the window and LED counters are zero, the key is released, and the LED is armed and lit; a scan always leaves `keyReadCounter` at 0 |
| MainLoop.PassWindowCounter | PIC18F66K90_TM1637.c:161-177 | from the invariant, `counts25ms` advances by the tick modulo 40, so the window fires exactly on the 40th tick, and `LEDcounter` stays equal to it |
| MainLoop.PassScanGate | PIC18F66K90_TM1637.c:161-173 | from the invariant, `keyscan()` is called exactly when 8 ticks have gathered with no key latched; without a call `keyReadCounter` grows by at most the tick; with no key latched it stays below 8, and with a key latched it stays within `counts25ms` |
| MainLoop.PassLedInv | PIC18F66K90_TM1637.c:175-219 | from the invariant, after a pass the LED is lit exactly while armed with `LEDonTime = 1`, and an armed flash never outlives `LEDcounter = 1` |
| MainLoop.PassKeepsInv | PIC18F66K90_TM1637.c:161-219 | a pass keeps the whole between-pass invariant; `counts25ms` advances by the tick modulo 40, so the window fires exactly on the 40th tick; a scan happens exactly when 8 ticks have gathered with no key latched |
| MainLoop.LedStageKeepsInv | PIC18F66K90_TM1637.c:244-255 | after `LEDflash` the LED is lit exactly while armed, and an armed flash never outlives `LEDcounter = 1` |
| MainLoop.Start | PIC18F66K90_TM1637.c:149-157 | at entry to the loop the count is 999999; every counter, the latched key and the LED on-time are zero; the flag is clear and the task is idle; the latch is as initialisation left it, with the LED dark; so the invariant holds; the first display shows 999999 |
| Trace.RunKeepsInv | PIC18F66K90_TM1637.c:133-140 | in every run from a state meeting the invariant, the counters stay below 40, so no `uint8_t` counter wraps; with no key latched `keyReadCounter < 8`; with a key latched `keyReadCounter <= counts25ms`; `LEDcounter == counts25ms` |
| Trace.WindowCount | PIC18F66K90_TM1637.c:175-177 | after passes carrying N ticks the window has fired exactly (counts25ms + N) / 40 times and `counts25ms` holds the remainder, however many passes carried no tick |
| Trace.CountAfterWraps | PIC18F66K90_TM1637.c:181-183 | from a six-digit start, `k` windows' worth of `outputInteger++` with the reset above 999999 leave the count at the start plus `k`, modulo 1000000 |
| Trace.CountFollowsWindows | PIC18F66K90_TM1637.c:175-183 | along any run, the count has been advanced once per window and never otherwise |
| Trace.CountWraps | PIC18F66K90_TM1637.c:175-183 | across a run from a six-digit count, the count advances by the number of windows modulo 1000000 |
| Trace.PollCounterSince | PIC18F66K90_TM1637.c:169-173 | after a scan and before the next one, `keyReadCounter` never exceeds the ticks drained since that scan |
| Trace.KeyScanSpacing | PIC18F66K90_TM1637.c:169-173 | two consecutive `keyscan()` calls are at least 8 ticks apart, and neither happens while a key is latched |
| Trace.LedOneShot | PIC18F66K90_TM1637.c:179-180 | once a window arms the LED, it stays lit while at most one more tick is drained; from the second tick until the next window it is dark and disarmed |
| Trace.FromStart | PIC18F66K90_TM1637.c:149-192 | from power-up, passes carrying N ticks fire N / 40 windows and leave `counts25ms = N % 40`; the display count reads (999999 + N / 40) mod 1000000 |

## Findings

| source | as written | input that shows it | evidently intended | confidence | as-written member | corrected member |
|---|---|---|---|---|---|---|
| PIC18F66K90_TM1637.c:108-109 | `TIMER1HIGHBYTE 0x3C`, `TIMER1LOWBYTE 0x60` form the preload 0x3C60 = 15456. That leaves 50080 counts, so each tick is 25.04 ms. | every tick: 40 ticks last 1.0016 s | the preload 65536 - 50000 = 15536 = 0x3CB0, as the comment computes, for exactly 25 ms | high; not executed | Timer1.AsWrittenTickIsLong | Timer1.IntendedPreload |

## Left out

- `tm1637initialise`, `tm1637output` and `keyscan` come from `TM1637PIC.h` and its library, which are not part of this model. `keyscan()` is the `scan` input of a pass. `tm1637output` is the `DisplayRequest` a pass returns. The digit formatting (rounding, blanking, right shift, decimal point) and the two-wire bus protocol are not modelled.
- The display library's own writes to the port G latch and TRIS (the data and clock pins RG1 and RG2) are not modelled. `latchG` records only the loop's own writes to RG3.
- `MainLoop.Start` takes the latch left by initialisation as a parameter. It requires only that RG3 is clear: `initialise18F66K90` writes `PORTG = 0`, and the display library drives other pins.
- The interrupt is not modelled as preemption. Each pass takes a boolean saying whether the handler raised the flag since the last drain. The atomicity of the volatile flag is outside the model.
- Timer1 counting and overflow are hardware. TMR1IF is an input of `Timer1.Isr`, not something the model derives.
- The configuration fuses and the rest of `initialise18F66K90` are chip set-up with no decisions in them. This covers the analog-select, TRIS, interrupt-enable and T1CON writes. Only the prescaler and preload constants are modelled.
- `_delay`, `__delay_ms` and the clock/PLL set-up are real-time behaviour, not logic.
- `LED2ON` is not used by the loop. The `brightness` and display-type constants go only to `tm1637initialise`.
- The LED-blink-only program `PIC18F66K90_HelloWorld.c` is a fixed delay loop with no state. It is not modelled.
