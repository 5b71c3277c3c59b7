/** Fixed-width unsigned integers of the XC8 target, with the wrap-around of
    the C `++` operator written out. */
module MachineInts {

  /** `uint8_t` */
  type u8 = x: int | 0 <= x < 0x100

  /** `uint32_t` */
  type u32 = x: int | 0 <= x < 0x1_0000_0000

  /** `x++` on a `uint8_t`: one more, except that 255 wraps to 0. */
  function Inc8(x: u8): (r: u8)
    ensures x < 0xFF ==> r == x + 1
    ensures x == 0xFF ==> r == 0
  {
    (x + 1) % 0x100
  }

  /** `x++` on a `uint32_t`: one more, except that 2^32 - 1 wraps to 0. */
  function Inc32(x: u32): (r: u32)
    ensures x < 0xFFFF_FFFF ==> r == x + 1
    ensures x == 0xFFFF_FFFF ==> r == 0
  {
    (x + 1) % 0x1_0000_0000
  }
}

/** The optional value used for a pass that may or may not talk to the display. */
module Wrappers {

  datatype Option<+T> = None | Some(value: T)
}
