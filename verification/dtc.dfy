/**
 * The `uint8_t dtcs` diagnostic-trouble-code bitfield of every control
 * state: eight independently settable and clearable bits, manipulated by
 * the firmware's `DTC_SET`, `DTC_CLEAR` and `DTC_CHECK` macros (set a bit,
 * clear a bit, test a bit).
 */
module Dtc {

  /** A bit position inside the 8-bit field. */
  type DtcBit = b: bv8 | b < 8

  /** The field with no fault latched, as `init_globals` leaves it. */
  const NoFaults: bv8 := 0

  function Mask(b: DtcBit): bv8
  {
    1 << b
  }

  /** `DTC_CHECK`: is bit `b` latched? */
  predicate Check(d: bv8, b: DtcBit)
  {
    d & Mask(b) != 0
  }

  /** `DTC_SET`: latch bit `b`, leaving every other bit as it was. */
  function Set(d: bv8, b: DtcBit): (r: bv8)
    ensures Check(r, b)
    ensures forall c: DtcBit :: c != b ==> (Check(r, c) <==> Check(d, c))
  {
    d | Mask(b)
  }

  /** `DTC_CLEAR`: release bit `b`, leaving every other bit as it was. */
  function Clear(d: bv8, b: DtcBit): (r: bv8)
    ensures !Check(r, b)
    ensures forall c: DtcBit :: c != b ==> (Check(r, c) <==> Check(d, c))
  {
    d & !Mask(b)
  }

  /** No bit of the empty field is latched. */
  lemma NoFaultsChecksNothing(b: DtcBit)
    ensures !Check(NoFaults, b)
  {
  }

  /**
   * The eight bits are the whole field: two fields that agree on every
   * bit are the same byte, so the DTC set is exactly eight independent
   * flags.
   */
  lemma {:induction false} BitsDetermineField(d: bv8, e: bv8)
    requires forall b: DtcBit :: Check(d, b) <==> Check(e, b)
    ensures d == e
  {
    assert Check(d, 0) <==> Check(e, 0);
    assert Check(d, 1) <==> Check(e, 1);
    assert Check(d, 2) <==> Check(e, 2);
    assert Check(d, 3) <==> Check(e, 3);
    assert Check(d, 4) <==> Check(e, 4);
    assert Check(d, 5) <==> Check(e, 5);
    assert Check(d, 6) <==> Check(e, 6);
    assert Check(d, 7) <==> Check(e, 7);
  }

  /** Setting then clearing a bit that was clear restores the field. */
  lemma SetThenClear(d: bv8, b: DtcBit)
    requires !Check(d, b)
    ensures Clear(Set(d, b), b) == d
  {
  }
}
