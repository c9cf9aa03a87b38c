/**
 * Fixed-width integers and the two Arduino-core helpers every actuator
 * module relies on: the `constrain` macro and the unsigned 32-bit time
 * difference behind `millis()` comparisons.
 */
module Arduino {

  type u8 = x: int | 0 <= x < 0x100
  type u16 = x: int | 0 <= x < 0x1_0000
  type u32 = x: int | 0 <= x < 0x1_0000_0000

  /** A sample returned by the 10-bit `analogRead`. */
  type AdcSample = x: int | 0 <= x < 0x400

  const U32Modulus: int := 0x1_0000_0000

  const U16Modulus: int := 0x1_0000

  /**
   * `x + y` on two `uint16_t` operands compiled for the AVR targets, where
   * `unsigned int` is 16 bits wide: the sum wraps modulo 2^16.
   */
  function AddU16(x: u16, y: u16): (r: u16)
    ensures r == x + y || r + U16Modulus == x + y
    ensures x + y < U16Modulus ==> r == x + y
  {
    (x + y) % U16Modulus
  }

  /** A calibrated output channel range `[min, max]`, in DAC steps. */
  datatype SignalRange = SignalRange(min: u16, max: u16) {
    predicate Valid() { min <= max }
    predicate Contains(x: int) { min <= x <= max }
  }

  function Distance(x: int, y: int): nat
  {
    if x < y then y - x else x - y
  }

  /**
   * Arduino's `constrain(amt, low, high)` macro: below `low` gives `low`,
   * otherwise above `high` gives `high`, otherwise `amt`. With an inverted
   * range (`low > high`) the macro still returns one of the two bounds,
   * which then need not lie "inside" anything.
   */
  function Constrain(x: int, lo: int, hi: int): (r: int)
    ensures r == x || r == lo || r == hi
    ensures lo <= hi ==> lo <= r <= hi
    ensures lo <= hi ==> (r == x <==> lo <= x <= hi)
    ensures lo <= hi ==> forall y :: lo <= y <= hi ==> Distance(x, r) <= Distance(x, y)
    ensures lo > hi ==> r == (if x < lo then lo else hi)
  {
    if x < lo then lo else if x > hi then hi else x
  }

  /** `constrain` applied to a 16-bit command and a calibrated range. */
  function Clamp(x: u16, range: SignalRange): (r: u16)
    ensures range.Valid() ==> range.Contains(r)
    ensures range.Valid() ==> (r == x <==> range.Contains(x))
    ensures range.Valid() && x < range.min ==> r == range.min
    ensures range.Valid() && x > range.max ==> r == range.max
  {
    Constrain(x, range.min, range.max)
  }

  /**
   * `now - since` on two `unsigned long` values (32 bits on the AVR
   * targets): the forward distance from `since` to `now` modulo 2^32,
   * which stays correct across a `millis()` wrap-around.
   */
  function Elapsed(now: u32, since: u32): (r: u32)
    ensures since + r == now || since + r == now + U32Modulus
    ensures since <= now ==> r == now - since
  {
    (now - since) % U32Modulus
  }
}
