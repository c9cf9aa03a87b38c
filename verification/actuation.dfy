/**
 * What the three actuator modules (brake, throttle, steering) share: the
 * `{enabled, operator_override, dtcs}` control state, the trace of
 * hardware effects a step produces, and the discontinuity-safe way the
 * spoof relay is switched.
 *
 * Every step of the model is a pure function returning the next state
 * together with the effects the firmware would perform, in order.
 */
module Actuation {

  import opened Arduino
  import Dtc

  /** `brake_control_state_s`, `throttle_control_state_s`, `steering_control_state_s`. */
  datatype ControlState = ControlState(enabled: bool, operatorOverride: bool, dtcs: bv8)

  /** The state `init_globals` establishes: disabled, no override, no DTC. */
  const Disabled: ControlState := ControlState(false, false, Dtc.NoFaults)

  /** The safety invariant: an override always forces the module to be disabled. */
  predicate OverrideExcludesEnabled(c: ControlState)
  {
    !(c.enabled && c.operatorOverride)
  }

  /** Observable effects of a step, in the order the firmware performs them. */
  datatype Effect =
      /** `prevent_signal_discontinuity`: sample the sensor pair and seed the DAC. */
    | SampleSensors(samples: nat)
      /** `digitalWrite(PIN_SPOOF_ENABLE, ...)`: energise or release the spoof relay. */
    | SpoofRelay(energized: bool)
      /** `g_dac.outputA(a); g_dac.outputB(b)`. */
    | DacOutput(a: int, b: int)
      /** `digitalWrite(PIN_BRAKE_LIGHT_ENABLE, ...)`. */
    | BrakeLight(on: bool)
      /** `publish_fault_report()`, carrying the DTC field at the time of the call. */
    | FaultReport(dtcs: bv8)

  datatype Step<S> = Step(state: S, effects: seq<Effect>)

  /** `num_samples` passed to `prevent_signal_discontinuity` on every transition. */
  const DiscontinuitySamples: nat := 20

  /**
   * Every switch of the spoof relay is immediately preceded by the
   * 20-sample discontinuity-prevention step.
   */
  predicate Guarded(t: seq<Effect>)
  {
    forall i :: 0 <= i < |t| && t[i].SpoofRelay? ==>
      0 < i && t[i - 1] == SampleSensors(DiscontinuitySamples)
  }

  /** The successive relay levels written in a trace. */
  function RelayLog(t: seq<Effect>): seq<bool>
  {
    if t == [] then []
    else (if t[0].SpoofRelay? then [t[0].energized] else []) + RelayLog(t[1..])
  }

  /** The fault reports published in a trace, as their DTC fields. */
  function FaultReports(t: seq<Effect>): seq<bv8>
  {
    if t == [] then []
    else (if t[0].FaultReport? then [t[0].dtcs] else []) + FaultReports(t[1..])
  }

  /** The relay sequence of a transition from `enabled == start`: each write flips the level. */
  predicate Alternates(start: bool, log: seq<bool>)
    decreases |log|
  {
    log == [] || (log[0] == !start && Alternates(log[0], log[1..]))
  }

  function Last(start: bool, log: seq<bool>): bool
  {
    if log == [] then start else log[|log| - 1]
  }

  /**
   * The physical relay tracks the logical flag: starting from a relay
   * level equal to `start`, the writes in `t` alternate and leave the
   * relay at `end`.
   */
  predicate RelayTracks(start: bool, t: seq<Effect>, end: bool)
  {
    Alternates(start, RelayLog(t)) && Last(start, RelayLog(t)) == end
  }

  /** The effects of one enable or disable transition (lines 181-190 / 204-213 of each `*_control.cpp`). */
  function SwitchSpoof(energize: bool): (t: seq<Effect>)
    ensures Guarded(t)
    ensures RelayTracks(!energize, t, energize)
    ensures FaultReports(t) == []
  {
    var t := [SampleSensors(DiscontinuitySamples), SpoofRelay(energize)];
    assert t[1..][1..] == [];
    assert RelayLog(t[1..]) == [energize];
    assert FaultReports(t[1..]) == [];
    assert Alternates(energize, []);
    t
  }

  lemma {:induction false} RelayLogAppend(a: seq<Effect>, b: seq<Effect>)
    ensures RelayLog(a + b) == RelayLog(a) + RelayLog(b)
  {
    if a == [] {
      assert a + b == b;
    } else {
      assert (a + b)[1..] == a[1..] + b;
      RelayLogAppend(a[1..], b);
    }
  }

  lemma {:induction false} FaultReportsAppend(a: seq<Effect>, b: seq<Effect>)
    ensures FaultReports(a + b) == FaultReports(a) + FaultReports(b)
  {
    if a == [] {
      assert a + b == b;
    } else {
      assert (a + b)[1..] == a[1..] + b;
      FaultReportsAppend(a[1..], b);
    }
  }

  lemma GuardedAppend(a: seq<Effect>, b: seq<Effect>)
    requires Guarded(a) && Guarded(b)
    ensures Guarded(a + b)
  {
    forall i | 0 <= i < |a + b| && (a + b)[i].SpoofRelay?
      ensures 0 < i && (a + b)[i - 1] == SampleSensors(DiscontinuitySamples)
    {
      if i >= |a| {
        assert (a + b)[i] == b[i - |a|];
      }
    }
  }

  lemma {:induction false} AlternatesAppend(start: bool, l1: seq<bool>, l2: seq<bool>)
    requires Alternates(start, l1) && Alternates(Last(start, l1), l2)
    ensures Alternates(start, l1 + l2)
    ensures Last(start, l1 + l2) == Last(Last(start, l1), l2)
    decreases |l1|
  {
    if l1 == [] {
      assert l1 + l2 == l2;
    } else {
      assert (l1 + l2)[1..] == l1[1..] + l2;
      assert Last(start, l1) == Last(l1[0], l1[1..]);
      AlternatesAppend(l1[0], l1[1..], l2);
    }
  }

  /** Relay tracking composes: two tracked traces in a row are tracked. */
  lemma RelayTracksAppend(a: bool, t1: seq<Effect>, b: bool, t2: seq<Effect>, c: bool)
    requires RelayTracks(a, t1, b) && RelayTracks(b, t2, c)
    ensures RelayTracks(a, t1 + t2, c)
  {
    RelayLogAppend(t1, t2);
    AlternatesAppend(a, RelayLog(t1), RelayLog(t2));
  }

  /** Appending one published fault report keeps a trace guarded and its relay log. */
  lemma AppendFaultReport(t: seq<Effect>, d: bv8)
    requires Guarded(t)
    ensures Guarded(t + [FaultReport(d)])
    ensures RelayLog(t + [FaultReport(d)]) == RelayLog(t)
    ensures FaultReports(t + [FaultReport(d)]) == FaultReports(t) + [d]
  {
    var e := [FaultReport(d)];
    assert e[1..] == [];
    RelayLogAppend(t, e);
    FaultReportsAppend(t, e);
    GuardedAppend(t, e);
  }

  /** A trace without relay writes leaves the relay where it was. */
  lemma RelayTracksSilent(a: bool, t: seq<Effect>)
    requires RelayLog(t) == []
    ensures RelayTracks(a, t, a)
  {
  }

  /**
   * Counts, not time: the sensor-fault counter a module keeps in its
   * `static int fault_count` and the threshold at which it latches.
   */
  const SensorValidityCheckFaultCount: int := 4

  /**
   * The dead range check left in the brake and steering sources, and the
   * contract `throttle_control.h` documents for
   * `check_accelerator_position_data`: one error per violated bound,
   * each channel compared against its calibrated range scaled down by
   * `>> 2` (10-bit ADC against 12-bit DAC steps).
   */
  function RangeErrorCount(a: int, b: int, rangeA: SignalRange, rangeB: SignalRange): (r: u8)
    ensures r <= 4
    ensures r == 0 <==> InScaledRange(a, rangeA) && InScaledRange(b, rangeB)
    ensures rangeA.Valid() && rangeB.Valid() ==> r <= 2
  {
    (if a > rangeA.max / 4 then 1 else 0)
    + (if a < rangeA.min / 4 then 1 else 0)
    + (if b > rangeB.max / 4 then 1 else 0)
    + (if b < rangeB.min / 4 then 1 else 0)
  }

  predicate InScaledRange(x: int, range: SignalRange)
  {
    range.min / 4 <= x <= range.max / 4
  }
}
