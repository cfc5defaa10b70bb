/** The integer widths and the `constrain` macro of the Arduino core that
    the firmware relies on. */
module Arduino {

  /** `uint8_t` */
  type UInt8 = x: int | 0 <= x < 0x100
  /** `uint16_t` */
  type UInt16 = x: int | 0 <= x < 0x1_0000
  /** `int32_t` (and `int` on the target) */
  type Int32 = x: int | -0x8000_0000 <= x < 0x8000_0000
  /** `uint32_t` (and `unsigned long` on the target) */
  type UInt32 = x: int | 0 <= x < 0x1_0000_0000

  /** `constrain(x, lo, hi)`: `x < lo ? lo : (x > hi ? hi : x)`. */
  function Constrain(x: int, lo: int, hi: int): (r: int)
    requires lo <= hi
    ensures lo <= r <= hi
    ensures lo <= x <= hi ==> r == x
    ensures x < lo ==> r == lo
    ensures x > hi ==> r == hi
  {
    if x < lo then lo else if x > hi then hi else x
  }

  /** `constrain` on floating-point operands, modelled over the reals.
      The macro is generic over its operand type; without a trait there is
      no ordered type shared by `int` and `real`, so the clamp is written
      once for each. */
  function ConstrainReal(x: real, lo: real, hi: real): (r: real)
    requires lo <= hi
    ensures lo <= r <= hi
    ensures lo <= x <= hi ==> r == x
    ensures x < lo ==> r == lo
    ensures x > hi ==> r == hi
  {
    if x < lo then lo else if x > hi then hi else x
  }

  /** Unsigned 32-bit subtraction, as `now - then` on `uint32_t` or
      `unsigned long`: the difference wraps modulo 2^32. */
  function Elapsed(now: UInt32, earlier: UInt32): (r: UInt32)
    ensures earlier <= now ==> r == now - earlier
    ensures now < earlier ==> r == now - earlier + 0x1_0000_0000
  {
    (now - earlier) % 0x1_0000_0000
  }

  /** The implicit conversion of a floating-point value to `int`, which
      truncates toward zero; floating point is modelled by the reals. */
  function Trunc(x: real): (r: int)
    ensures x >= 0.0 ==> r as real <= x < r as real + 1.0
    ensures x < 0.0 ==> r as real - 1.0 < x <= r as real
  {
    if x >= 0.0 then x.Floor else -((-x).Floor)
  }
}
