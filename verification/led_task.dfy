/** The one-shot LED on RG3 driven by `LEDflash`. */
module LedIndicator {
  import opened MachineInts

  /** `LED1ON`: the port G latch mask for RG3. */
  const Led1On: bv8 := 0x08

  /** Whether the latch drives LED1. */
  predicate LedLit(latch: bv8)
  {
    latch & Led1On != 0
  }

  /** What `LEDflash` leaves behind: the latch and `LEDonTime`. */
  datatype Flash = Flash(latch: bv8, onTime: u8)

  /** `LEDflash`: LED1 is held on while the counter has not passed the on
      time; once it has, LED1 is switched off and the flash disarms itself by
      zeroing the on time. No latch bit other than RG3 is touched. */
  function LedFlash(latch: bv8, counter: u8, onTime: u8): (f: Flash)
    ensures f.latch & !Led1On == latch & !Led1On
    ensures LedLit(f.latch) <==> counter <= onTime
    ensures counter <= onTime ==> f.onTime == onTime
    ensures counter > onTime ==> f.onTime == 0
  {
    if counter <= onTime then
      Flash(latch | Led1On, onTime)
    else
      Flash(latch & !Led1On, 0)
  }
}

/** The cooperative task framework driven by `taskStatus`. */
module TaskMachine {
  import opened MachineInts

  /** The four named stages of the non-blocking task. */
  const NoTask: u8 := 0
  const TaskStart: u8 := 1
  const TaskStage: u8 := 2
  const TaskEnd: u8 := 3

  /** The `switch (taskStatus)` of the main loop. Idle stays idle and every
      named stage does its (empty) work and hands control back to idle in the
      same pass; a value outside the four stages matches no case and is left
      as it is. */
  function Dispatch(status: u8): (next: u8)
    ensures status <= TaskEnd ==> next == NoTask
    ensures status > TaskEnd ==> next == status
  {
    if status == NoTask then status
    else if status == TaskStart then NoTask
    else if status == TaskStage then NoTask
    else if status == TaskEnd then NoTask
    else status
  }
}
