/** Runs of the main loop over a sequence of passes, and the properties that
    only show up across passes: how many windows a run contains, how the
    seconds count wraps, how far apart key scans are, and how long the LED
    stays lit. */
module Trace {
  import opened MachineInts
  import opened Wrappers
  import opened LedIndicator
  import opened MainLoop

  /** The inputs of one pass. */
  datatype Input = Input(tick: bool, scan: u8)

  /** The state after running the passes `ins` from `s`. */
  function Run(s: LoopState, ins: seq<Input>): LoopState
    decreases |ins|
  {
    if |ins| == 0 then s
    else
      var last := ins[|ins| - 1];
      Pass(Run(s, ins[..|ins| - 1]), last.tick, last.scan).state
  }

  /** Counter bounds: every state of a run from a state satisfying the
      invariant satisfies it too, so no `uint8_t` counter ever wraps. */
  lemma {:induction false} RunKeepsInv(s: LoopState, ins: seq<Input>)
    requires Inv(s)
    ensures Inv(Run(s, ins))
    ensures Run(s, ins).counts25ms < 40 && Run(s, ins).ledCounter < 40
    ensures Run(s, ins).keyReadCounter < 40
    decreases |ins|
  {
    if |ins| > 0 {
      var last := ins[|ins| - 1];
      RunKeepsInv(s, ins[..|ins| - 1]);
      PassKeepsInv(Run(s, ins[..|ins| - 1]), last.tick, last.scan);
    }
  }

  /** The outputs of pass `k` of the run. */
  function Out(s: LoopState, ins: seq<Input>, k: nat): PassOutput
    requires k < |ins|
  {
    Pass(Run(s, ins[..k]), ins[k].tick, ins[k].scan).out
  }

  /** How many of the passes carried a tick. */
  function Ticks(ins: seq<Input>): nat
    decreases |ins|
  {
    if |ins| == 0 then 0 else Ticks(ins[..|ins| - 1]) + TickCount(ins[|ins| - 1].tick)
  }

  /** How many passes of the run fired the one-second window. */
  function Windows(s: LoopState, ins: seq<Input>): nat
    decreases |ins|
  {
    if |ins| == 0 then 0
    else Windows(s, ins[..|ins| - 1]) + (if Out(s, ins, |ins| - 1).display.Some? then 1 else 0)
  }

  /** Running one pass more is one more `Pass`. */
  lemma {:induction false} RunStep(s: LoopState, ins: seq<Input>, j: nat)
    requires 0 < j <= |ins|
    ensures Run(s, ins[..j]) == Pass(Run(s, ins[..j - 1]), ins[j - 1].tick, ins[j - 1].scan).state
  {
    assert ins[..j][..j - 1] == ins[..j - 1];
  }

  /** The ticks of a slice are those of the slice one shorter plus its last pass. */
  lemma {:induction false} TicksSnoc(ins: seq<Input>, a: nat, b: nat)
    requires a < b <= |ins|
    ensures Ticks(ins[a..b]) == Ticks(ins[a..b - 1]) + TickCount(ins[b - 1].tick)
  {
    var seg := ins[a..b];
    assert seg[..|seg| - 1] == ins[a..b - 1];
    assert seg[|seg| - 1] == ins[b - 1];
  }

  /** Adding 0 or 1 to `n` crosses a multiple of 40 exactly when the
      remainder reaches 40. */
  lemma {:induction false} DivModStep(n: nat, t: nat)
    requires t <= 1
    ensures (n + t) / 40 == n / 40 + (if n % 40 + t == 40 then 1 else 0)
    ensures (n + t) % 40 == (n % 40 + t) % 40
  {
    var q, m := n / 40, n % 40;
    assert n == 40 * q + m;
    if m + t == 40 {
      assert n + t == 40 * (q + 1);
    } else {
      assert n + t == 40 * q + (m + t);
    }
  }

  /** Window count: the window fires once per 40 drained ticks, never skipped
      and never doubled however many passes carry no tick; the window counter
      holds the ticks left over. */
  lemma {:induction false} WindowCount(s: LoopState, ins: seq<Input>)
    requires Inv(s)
    ensures Windows(s, ins) == (s.counts25ms + Ticks(ins)) / 40
    ensures Run(s, ins).counts25ms == (s.counts25ms + Ticks(ins)) % 40
    decreases |ins|
  {
    if |ins| > 0 {
      var pre := ins[..|ins| - 1];
      var last := ins[|ins| - 1];
      WindowCount(s, pre);
      var before := Run(s, pre);
      RunKeepsInv(s, pre);
      PassWindowCounter(before, last.tick, last.scan);
      DivModStep(s.counts25ms + Ticks(pre), TickCount(last.tick));
    }
  }

  /** Taking the remainder before or after a step of one gives the same count. */
  lemma {:induction false} ModSucc(a: nat)
    ensures (a % CountModulus + 1) % CountModulus == (a + 1) % CountModulus
  {
    var q, m := a / CountModulus, a % CountModulus;
    assert a == CountModulus * q + m;
    if m + 1 == CountModulus {
      assert a + 1 == CountModulus * (q + 1);
    } else {
      assert a + 1 == CountModulus * q + (m + 1);
    }
  }

  /** The count after `k` windows from `start`: `NextCount` applied `k` times. */
  function CountAfter(start: u32, k: nat): u32
    decreases k
  {
    if k == 0 then start else NextCount(CountAfter(start, k - 1))
  }

  /** If the count stands at `a` modulo one million, one `NextCount` brings it
      to `a + 1` modulo one million. */
  lemma {:induction false} CountStepMod(a: nat, c: u32)
    requires c == a % CountModulus
    ensures NextCount(c) == (a + 1) % CountModulus
  {
    ModSucc(a);
  }

  /** From a six-digit start, `k` windows advance the count by `k` modulo one
      million. */
  lemma {:induction false} CountAfterWraps(start: u32, k: nat)
    requires start <= CountLimit
    ensures CountAfter(start, k) == (start + k) % CountModulus
    decreases k
  {
    if k > 0 {
      CountAfterWraps(start, k - 1);
      CountStepMod(start + (k - 1), CountAfter(start, k - 1));
    }
  }

  /** Each pass that fires the window moves the count on by one `NextCount`,
      and no other pass moves it. */
  lemma {:induction false} CountFollowsWindows(s: LoopState, ins: seq<Input>)
    ensures Run(s, ins).outputInteger == CountAfter(s.outputInteger, Windows(s, ins))
    decreases |ins|
  {
    if |ins| > 0 {
      var pre := ins[..|ins| - 1];
      var last := ins[|ins| - 1];
      CountFollowsWindows(s, pre);
      assert Out(s, ins, |ins| - 1) == Pass(Run(s, pre), last.tick, last.scan).out;
    }
  }

  /** Displayed counter wrap: each window advances the seconds count by one
      modulo one million, and nothing else moves it. */
  lemma {:induction false} CountWraps(s: LoopState, ins: seq<Input>)
    requires s.outputInteger <= CountLimit
    ensures Run(s, ins).outputInteger == (s.outputInteger + Windows(s, ins)) % CountModulus
  {
    CountFollowsWindows(s, ins);
    var w := Windows(s, ins);
    var c := Run(s, ins).outputInteger;
    assert c == CountAfter(s.outputInteger, w);
    CountAfterWraps(s.outputInteger, w);
    assert c == (s.outputInteger + w) % CountModulus;
  }

  /** From one scan to pass `j`, with no scan in between, the poll counter
      has counted no more than the ticks drained after the scan. */
  lemma {:induction false} PollCounterSince(s: LoopState, ins: seq<Input>, i: nat, j: nat)
    requires Inv(s)
    requires i < j <= |ins|
    requires Out(s, ins, i).scanned
    requires forall k :: i < k < j ==> !Out(s, ins, k).scanned
    ensures Run(s, ins[..j]).keyReadCounter <= Ticks(ins[i + 1..j])
    decreases j
  {
    if j == i + 1 {
      RunStep(s, ins, j);
      assert Run(s, ins[..j]).keyReadCounter == 0;
      assert ins[i + 1..j] == [];
      assert Ticks(ins[i + 1..j]) == 0;
    } else {
      PollCounterSince(s, ins, i, j - 1);
      var prev := Run(s, ins[..j - 1]);
      var before := prev.keyReadCounter;
      assert before <= Ticks(ins[i + 1..j - 1]);
      TicksSnoc(ins, i + 1, j);
      assert !Out(s, ins, j - 1).scanned;
      RunStep(s, ins, j);
      RunKeepsInv(s, ins[..j - 1]);
      PassScanGate(prev, ins[j - 1].tick, ins[j - 1].scan);
    }
  }

  /** Key poll gating: two consecutive calls of `keyscan()` are at least 8
      ticks apart, and neither happens while a key is latched. */
  lemma {:induction false} KeyScanSpacing(s: LoopState, ins: seq<Input>, i: nat, j: nat)
    requires Inv(s)
    requires i < j < |ins|
    requires Out(s, ins, i).scanned && Out(s, ins, j).scanned
    requires forall k :: i < k < j ==> !Out(s, ins, k).scanned
    ensures Ticks(ins[i + 1..j + 1]) >= 8
    ensures Run(s, ins[..i]).keyPressed == 0 && Run(s, ins[..j]).keyPressed == 0
  {
    PollCounterSince(s, ins, i, j);
    var before := Run(s, ins[..j]);
    var counted := before.keyReadCounter;
    assert counted <= Ticks(ins[i + 1..j]);
    TicksSnoc(ins, i + 1, j + 1);
    RunKeepsInv(s, ins[..j]);
    PassScanGate(before, ins[j].tick, ins[j].scan);
    assert counted + TickCount(ins[j].tick) >= KeyPollTicks;
    RunKeepsInv(s, ins[..i]);
    PassScanGate(Run(s, ins[..i]), ins[i].tick, ins[i].scan);
  }

  /** LED one-shot: after a window arms the LED, it stays lit while at most
      one further tick has been drained (two ticks in all, 50 ms at the 25 ms
      interval the `TIMER1LOWBYTE` comment computes) and is dark from the second tick until the next window. */
  lemma {:induction false} LedOneShot(s: LoopState, ins: seq<Input>)
    requires Inv(s)
    requires s.counts25ms == 0 && s.ledOnTime == LedOnTicks
    requires Ticks(ins) < 40
    ensures LedLit(Run(s, ins).latchG) <==> Ticks(ins) <= 1
    ensures Run(s, ins).ledOnTime == (if Ticks(ins) <= 1 then LedOnTicks else 0)
    ensures Run(s, ins).counts25ms == Ticks(ins)
    decreases |ins|
  {
    if |ins| > 0 {
      var pre := ins[..|ins| - 1];
      var last := ins[|ins| - 1];
      LedOneShot(s, pre);
      var before := Run(s, pre);
      RunKeepsInv(s, pre);
      PassKeepsInv(before, last.tick, last.scan);
    }
  }

  /** The run from power-up: after any sequence of passes carrying N ticks the
      window has fired N / 40 times, the window counter holds N % 40, and the
      display count, which started at 999999, reads (999999 + N / 40) modulo
      one million, so the first window shows 0. */
  lemma {:induction false} FromStart(latch: bv8, ins: seq<Input>)
    requires !LedLit(latch)
    ensures Windows(Start(latch).state, ins) == Ticks(ins) / 40
    ensures Run(Start(latch).state, ins).counts25ms == Ticks(ins) % 40
    ensures Run(Start(latch).state, ins).outputInteger == (InitialCount + Ticks(ins) / 40) % CountModulus
  {
    WindowCount(Start(latch).state, ins);
    CountWraps(Start(latch).state, ins);
  }
}
