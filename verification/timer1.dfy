/** Timer1 as the tick source: the preload constants that fix the tick
    interval, and the effect of the high-priority interrupt routine `ISRhi`
    on the registers and on the software tick flag. */
module Timer1 {

  /** `T1PRESCALE`: the two T1CKPS bits, 0b11 selecting a 1:8 prescaler. */
  const T1Prescale: nat := 0x03
  /** `TIMER1HIGHBYTE` and `TIMER1LOWBYTE` as written: the preload 0x3C60. */
  const Timer1HighByte: bv8 := 0x3C
  const Timer1LowByte: bv8 := 0x60
  /** The low byte of the 65536 - 50000 = 15536 = 0x3CB0 preload that the
      `TIMER1HIGHBYTE` comment computes. */
  const IntendedLowByte: bv8 := 0xB0
  /** `_XTAL_FREQ`: 16 MHz crystal with the x4 PLL. */
  const XtalFreq: nat := 64_000_000
  /** A PIC18 instruction cycle takes four oscillator periods. */
  const ClocksPerCycle: nat := 4
  /** Timer1 is a 16-bit up-counter that interrupts when it overflows. */
  const TimerModulus: nat := 0x1_0000
  /** The tick interval in nanoseconds that the `TIMER1LOWBYTE` comment
      computes: 25 ms. */
  const IntendedTickNanos: nat := 25_000_000

  /** Bit 0 of PIR1 is TMR1IF, the Timer1 overflow flag. */
  const Tmr1If: bv8 := 0x01

  /** The prescaler divisor selected by the T1CKPS bits: 1:1, 1:2, 1:4 or 1:8. */
  function PrescaleDivisor(ckps: nat): nat
    requires ckps < 4
  {
    if ckps == 0 then 1 else if ckps == 1 then 2 else if ckps == 2 then 4 else 8
  }

  /** The 16-bit value TMR1H:TMR1L holds after `high` and `low` are written. */
  function PreloadOf(high: bv8, low: bv8): nat
  {
    high as nat * 0x100 + low as nat
  }

  /** Time from a reload with `preload` to the next overflow, in nanoseconds:
      the remaining counts, times the prescaler, times one instruction cycle
      (4 / 64 MHz = 62.5 ns). */
  function TickNanos(preload: nat): nat
    requires preload < TimerModulus
  {
    (TimerModulus - preload) * PrescaleDivisor(T1Prescale) * ClocksPerCycle * 1000
      / (XtalFreq / 1_000_000)
  }

  /** The preload as written is 0x3C60 = 15456, not 15536: it leaves 50080
      counts, 400640 cycles, so each tick lasts 25.04 ms rather than 25 ms and
      the one-second window runs 1.6 ms long. */
  lemma {:induction false} AsWrittenTickIsLong()
    ensures PreloadOf(Timer1HighByte, Timer1LowByte) == 15456
    ensures TickNanos(PreloadOf(Timer1HighByte, Timer1LowByte)) == 25_040_000
    ensures 40 * TickNanos(PreloadOf(Timer1HighByte, Timer1LowByte)) == 40 * IntendedTickNanos + 1_600_000
  {
    assert Timer1HighByte as nat == 0x3C && Timer1LowByte as nat == 0x60;
  }

  /** The corrected preload 0x3CB0: 50000 counts at 1:8, 400000 cycles, 25 ms;
      the 40-tick window is then one second and the 8-tick key poll 200 ms. */
  function IntendedPreload(): (p: nat)
    ensures p == TimerModulus - 50_000
    ensures TickNanos(p) == IntendedTickNanos
    ensures 40 * TickNanos(p) == 1_000_000_000
    ensures 8 * TickNanos(p) == 200_000_000
  {
    assert Timer1HighByte as nat == 0x3C && IntendedLowByte as nat == 0xB0;
    PreloadOf(Timer1HighByte, IntendedLowByte)
  }

  /** The Timer1 registers the interrupt routine touches, and the flag it
      hands to the main loop. */
  datatype Regs = Regs(pir1: bv8, tmr1h: bv8, tmr1l: bv8, timer1Flag: bool)

  /** The 16-bit timer value. */
  function TimerValue(r: Regs): nat
  {
    PreloadOf(r.tmr1h, r.tmr1l)
  }

  /** `ISRhi`: when TMR1IF is set, acknowledge it, reload the preload as
      written (0x3C60, see `AsWrittenTickIsLong`) and raise the tick flag;
      otherwise nothing happens. No other PIR1 bit changes. */
  function Isr(s: Regs): (r: Regs)
    ensures r.pir1 & !Tmr1If == s.pir1 & !Tmr1If
    ensures r.pir1 & Tmr1If == 0
    ensures r.timer1Flag <==> s.timer1Flag || s.pir1 & Tmr1If != 0
    ensures s.pir1 & Tmr1If != 0 ==> TimerValue(r) == PreloadOf(Timer1HighByte, Timer1LowByte)
    ensures s.pir1 & Tmr1If == 0 ==> r == s
  {
    if s.pir1 & Tmr1If != 0 then
      Regs(s.pir1 & !Tmr1If, Timer1HighByte, Timer1LowByte, true)
    else
      s
  }

  /** The flag is a single slot: when a second overflow sets TMR1IF again
      before the main loop drains the flag, the second interrupt reloads the
      timer and acknowledges the overflow but leaves the flag as the first
      one did, so the two overflows merge into one pending tick. */
  lemma {:induction false} IsrIdempotent(s: Regs)
    requires s.pir1 & Tmr1If != 0
    ensures var s1 := Isr(s); Isr(s1.(pir1 := s1.pir1 | Tmr1If)) == s1
  {
  }
}
