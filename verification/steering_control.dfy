/**
 * The steering actuator (`steering_control.cpp`): the operator-override
 * check on the low-pass-filtered difference of the two torque-sensor
 * channels, the sensor-fault counter, the clamped spoof output, and the
 * enable/disable state machine, whose disable also resets the filter.
 */
module SteeringControl {

  import opened Arduino
  import Dtc
  import opened Actuation

  /** `OSCC_STEERING_DTC_INVALID_SENSOR_VAL`. */
  const InvalidSensorVal: Dtc.DtcBit := 0

  /** `OSCC_STEERING_DTC_OPERATOR_OVERRIDE`. */
  const OperatorOverride: Dtc.DtcBit := 1

  /** `filter_alpha == 0.01`, as the weight of the new input in percent. */
  const FilterAlphaPercent: int := 1

  /** `steering_torque_s`: both torque-sensor channels, in 12-bit DAC steps. */
  datatype SteeringTorque = SteeringTorque(a: u16, b: u16)

  /** The vehicle calibration the steering module is compiled with. */
  datatype Calibration = Calibration(
    spoofA: SignalRange,                         // STEERING_SPOOF_A_SIGNAL_RANGE_MIN .. _MAX
    spoofB: SignalRange,                         // STEERING_SPOOF_B_SIGNAL_RANGE_MIN .. _MAX
    torqueDifferenceOverrideThreshold: int)      // TORQUE_DIFFERENCE_OVERRIDE_THRESHOLD
  {
    predicate Valid() { spoofA.Valid() && spoofB.Valid() }
  }

  /**
   * `g_steering_control_state`, the watchdog flag
   * `g_steering_command_timeout`, the `filtered_diff` file static and the
   * sensor-fault `fault_count` static.
   */
  datatype SteeringState = SteeringState(
    control: ControlState,
    commandTimeout: bool,
    filteredDiff: u16,
    faultCount: int)

  const Initial: SteeringState := SteeringState(Disabled, false, 0, 0)

  /** `enable_control`: only from disabled and not overridden; disarms the watchdog. */
  function EnableControl(s: SteeringState): (r: Step<SteeringState>)
    ensures r.state.control.enabled <==> s.control.enabled || !s.control.operatorOverride
    ensures r.state.control.enabled != s.control.enabled ==>
      !r.state.commandTimeout && r.effects == SwitchSpoof(true)
    ensures r.state.control.enabled == s.control.enabled ==> r == Step(s, [])
    ensures r.state.control.operatorOverride == s.control.operatorOverride
    ensures r.state.control.dtcs == s.control.dtcs
    ensures r.state.filteredDiff == s.filteredDiff && r.state.faultCount == s.faultCount
  {
    if !s.control.enabled && !s.control.operatorOverride then
      Step(s.(control := s.control.(enabled := true), commandTimeout := false), SwitchSpoof(true))
    else
      Step(s, [])
  }

  /**
   * `disable_control`: a no-op unless enabled; a real transition also
   * disarms the watchdog and resets the override filter to 0.
   */
  function DisableControl(s: SteeringState): (r: Step<SteeringState>)
    ensures !r.state.control.enabled
    ensures s.control.enabled ==>
      !r.state.commandTimeout && r.state.filteredDiff == 0 && r.effects == SwitchSpoof(false)
    ensures !s.control.enabled ==> r == Step(s, [])
    ensures r.state.control.operatorOverride == s.control.operatorOverride
    ensures r.state.control.dtcs == s.control.dtcs && r.state.faultCount == s.faultCount
  {
    if s.control.enabled then
      Step(s.(control := s.control.(enabled := false), commandTimeout := false, filteredDiff := 0),
           SwitchSpoof(false))
    else
      Step(s, [])
  }

  /**
   * `read_torque_sensor`: each 10-bit ADC sample shifted left by 2 into
   * the 12-bit range; the shift loses nothing.
   */
  function ReadTorqueSensor(rawA: AdcSample, rawB: AdcSample): (t: SteeringTorque)
    ensures t.a % 4 == 0 && t.b % 4 == 0
    ensures t.a <= 4092 && t.b <= 4092
    ensures t.a / 4 == rawA && t.b / 4 == rawB
  {
    SteeringTorque(rawA * 4, rawB * 4)
  }

  /** `unfiltered_diff`: the absolute disagreement of the two channels. */
  function TorqueDifference(t: SteeringTorque): (d: u16)
    ensures d == Distance(t.a, t.b)
    ensures d == 0 <==> t.a == t.b
  {
    if t.a < t.b then t.b - t.a else t.a - t.b
  }

  /**
   * `exponential_moving_average(0.01, input, average)` truncated into
   * `uint16_t`, in exact integer arithmetic: the result lies between the
   * two arguments and a constant signal is a fixed point.
   */
  function EmaStep(input: u16, average: u16): (r: u16)
    ensures Min(input, average) <= r <= Max(input, average)
    ensures input == average ==> r == average
  {
    (FilterAlphaPercent * input + (100 - FilterAlphaPercent) * average) / 100
  }

  function Min(x: int, y: int): int { if x < y then x else y }
  function Max(x: int, y: int): int { if x < y then y else x }

  /**
   * One filter update: a reset filter (0) is first seeded with the raw
   * difference, so it then equals it; otherwise it moves from its old
   * value toward the raw difference without overshooting.
   */
  function FilterUpdate(previous: u16, raw: u16): (r: u16)
    ensures previous == 0 ==> r == raw
    ensures previous != 0 ==> Min(previous, raw) <= r <= Max(previous, raw)
  {
    EmaStep(raw, if previous == 0 then raw else previous)
  }

  predicate OverrideCheckActive(s: SteeringState)
  {
    s.control.enabled || s.control.operatorOverride
  }

  /** The filtered difference a check on `t` computes. */
  function NextFilter(s: SteeringState, t: SteeringTorque): u16
  {
    FilterUpdate(s.filteredDiff, TorqueDifference(t))
  }

  /**
   * `check_for_operator_override`: update the filter with the new
   * difference; above the threshold disable (which resets the filter if
   * control was enabled), latch the DTC, report and mark the override;
   * otherwise clear both.
   */
  function CheckForOperatorOverride(cal: Calibration, s: SteeringState, t: SteeringTorque): (r: Step<SteeringState>)
    ensures !OverrideCheckActive(s) ==> r == Step(s, [])
    ensures OverrideCheckActive(s) ==> OverrideExcludesEnabled(r.state.control)
    ensures OverrideCheckActive(s) && NextFilter(s, t) > cal.torqueDifferenceOverrideThreshold ==>
      && !r.state.control.enabled
      && r.state.control.operatorOverride
      && Dtc.Check(r.state.control.dtcs, OperatorOverride)
      && r.state.filteredDiff == (if s.control.enabled then 0 else NextFilter(s, t))
      && r.effects == DisableControl(s.(filteredDiff := NextFilter(s, t))).effects + [FaultReport(r.state.control.dtcs)]
    ensures OverrideCheckActive(s) && NextFilter(s, t) <= cal.torqueDifferenceOverrideThreshold ==>
      && !r.state.control.operatorOverride
      && !Dtc.Check(r.state.control.dtcs, OperatorOverride)
      && r.state.control.enabled == s.control.enabled
      && r.state.filteredDiff == NextFilter(s, t)
      && r.state.commandTimeout == s.commandTimeout
      && r.effects == []
    ensures Dtc.Check(r.state.control.dtcs, InvalidSensorVal) == Dtc.Check(s.control.dtcs, InvalidSensorVal)
    ensures r.state.faultCount == s.faultCount
  {
    if !OverrideCheckActive(s) then
      Step(s, [])
    else
      var filtered := NextFilter(s, t);
      if filtered > cal.torqueDifferenceOverrideThreshold then
        var d := DisableControl(s.(filteredDiff := filtered));
        var dtcs := Dtc.Set(d.state.control.dtcs, OperatorOverride);
        Step(d.state.(control := d.state.control.(dtcs := dtcs, operatorOverride := true)),
             d.effects + [FaultReport(dtcs)])
      else
        var c := s.control.(dtcs := Dtc.Clear(s.control.dtcs, OperatorOverride), operatorOverride := false);
        Step(s.(control := c, filteredDiff := filtered), [])
  }

  /**
   * `check_torque_sensor_data` as written: the four range comparisons are
   * computed, then `return 0;` discards them, so every reading is valid.
   */
  function CheckTorqueSensorData(cal: Calibration, t: SteeringTorque): (r: u8)
    ensures r == 0
  {
    0
  }

  predicate SensorCheckActive(s: SteeringState)
  {
    s.control.enabled || Dtc.Check(s.control.dtcs, InvalidSensorVal)
  }

  /**
   * The counter logic of `check_for_sensor_faults` given the validity
   * verdict: the fourth consecutive invalid reading (and every later one)
   * disables, latches and reports; a valid reading clears at once.
   */
  function SensorFaultStep(s: SteeringState, invalid: bool): (r: Step<SteeringState>)
    ensures !invalid ==>
      && r.state.faultCount == 0
      && !Dtc.Check(r.state.control.dtcs, InvalidSensorVal)
      && r.state.control.enabled == s.control.enabled
      && r.effects == []
    ensures invalid ==> r.state.faultCount == s.faultCount + 1
    ensures invalid && s.faultCount + 1 < SensorValidityCheckFaultCount ==>
      r.state.control == s.control && r.effects == []
    ensures invalid && s.faultCount + 1 >= SensorValidityCheckFaultCount ==>
      && !r.state.control.enabled
      && Dtc.Check(r.state.control.dtcs, InvalidSensorVal)
      && r.effects == DisableControl(s).effects + [FaultReport(r.state.control.dtcs)]
    ensures r.state.control.operatorOverride == s.control.operatorOverride
    ensures Dtc.Check(r.state.control.dtcs, OperatorOverride) == Dtc.Check(s.control.dtcs, OperatorOverride)
  {
    if invalid then
      var n := s.faultCount + 1;
      if n >= SensorValidityCheckFaultCount then
        var d := DisableControl(s.(faultCount := n));
        var dtcs := Dtc.Set(d.state.control.dtcs, InvalidSensorVal);
        Step(d.state.(control := d.state.control.(dtcs := dtcs)), d.effects + [FaultReport(dtcs)])
      else
        Step(s.(faultCount := n), [])
    else
      var c := s.control.(dtcs := Dtc.Clear(s.control.dtcs, InvalidSensorVal));
      Step(s.(control := c, faultCount := 0), [])
  }

  /**
   * `check_for_sensor_faults` as written: an active check only clears the
   * invalid-sensor DTC and the counter, and changes nothing else.
   */
  function CheckForSensorFaults(cal: Calibration, s: SteeringState, t: SteeringTorque): (r: Step<SteeringState>)
    ensures !SensorCheckActive(s) ==> r == Step(s, [])
    ensures SensorCheckActive(s) ==>
      && r.state.faultCount == 0
      && !Dtc.Check(r.state.control.dtcs, InvalidSensorVal)
      && r.state.control.enabled == s.control.enabled
      && r.state.control.operatorOverride == s.control.operatorOverride
      && r.effects == []
    ensures Dtc.Check(r.state.control.dtcs, OperatorOverride) == Dtc.Check(s.control.dtcs, OperatorOverride)
    ensures r.state.commandTimeout == s.commandTimeout && r.state.filteredDiff == s.filteredDiff
  {
    if SensorCheckActive(s) then
      SensorFaultStep(s, CheckTorqueSensorData(cal, t) != 0)
    else
      Step(s, [])
  }

  /** `update_steering`: while enabled, write both commands clamped into their ranges. */
  function UpdateSteering(cal: Calibration, s: SteeringState, commandA: u16, commandB: u16): (r: Step<SteeringState>)
    ensures r.state == s
    ensures !s.control.enabled ==> r.effects == []
    ensures s.control.enabled ==>
      r.effects == [DacOutput(Clamp(commandA, cal.spoofA), Clamp(commandB, cal.spoofB))]
    ensures s.control.enabled && cal.Valid() ==>
      cal.spoofA.Contains(r.effects[0].a) && cal.spoofB.Contains(r.effects[0].b)
  {
    if s.control.enabled then
      Step(s, [DacOutput(Clamp(commandA, cal.spoofA), Clamp(commandB, cal.spoofB))])
    else
      Step(s, [])
  }

  datatype Event =
    | Enable
    | Disable
    | OverrideCheck(rawA: AdcSample, rawB: AdcSample)
    | SensorCheck(rawA: AdcSample, rawB: AdcSample)
    | Command(spoofA: u16, spoofB: u16)

  function Next(cal: Calibration, s: SteeringState, e: Event): Step<SteeringState>
  {
    match e
    case Enable => EnableControl(s)
    case Disable => DisableControl(s)
    case OverrideCheck(a, b) => CheckForOperatorOverride(cal, s, ReadTorqueSensor(a, b))
    case SensorCheck(a, b) => CheckForSensorFaults(cal, s, ReadTorqueSensor(a, b))
    case Command(a, b) => UpdateSteering(cal, s, a, b)
  }

  function Run(cal: Calibration, s: SteeringState, es: seq<Event>): Step<SteeringState>
    decreases |es|
  {
    if es == [] then Step(s, [])
    else
      var h := Next(cal, s, es[0]);
      var t := Run(cal, h.state, es[1..]);
      Step(t.state, h.effects + t.effects)
  }

  lemma NextIsSafe(cal: Calibration, s: SteeringState, e: Event)
    requires OverrideExcludesEnabled(s.control)
    ensures OverrideExcludesEnabled(Next(cal, s, e).state.control)
    ensures Guarded(Next(cal, s, e).effects)
    ensures RelayTracks(s.control.enabled, Next(cal, s, e).effects, Next(cal, s, e).state.control.enabled)
  {
    var r := Next(cal, s, e);
    match e
    case Enable =>
    case Disable =>
    case OverrideCheck(a, b) =>
      var t := ReadTorqueSensor(a, b);
      if OverrideCheckActive(s) && NextFilter(s, t) > cal.torqueDifferenceOverrideThreshold {
        AppendFaultReport(DisableControl(s.(filteredDiff := NextFilter(s, t))).effects, r.state.control.dtcs);
      }
    case SensorCheck(a, b) =>
    case Command(a, b) =>
      if s.control.enabled {
        assert r.effects[1..] == [];
      }
  }

  /** The safety invariant, relay guarding and relay tracking over any run. */
  lemma {:induction false} RunIsSafe(cal: Calibration, s: SteeringState, es: seq<Event>)
    requires OverrideExcludesEnabled(s.control)
    ensures OverrideExcludesEnabled(Run(cal, s, es).state.control)
    ensures Guarded(Run(cal, s, es).effects)
    ensures RelayTracks(s.control.enabled, Run(cal, s, es).effects, Run(cal, s, es).state.control.enabled)
    decreases |es|
  {
    if es != [] {
      var h := Next(cal, s, es[0]);
      var t := Run(cal, h.state, es[1..]);
      NextIsSafe(cal, s, es[0]);
      RunIsSafe(cal, h.state, es[1..]);
      GuardedAppend(h.effects, t.effects);
      RelayTracksAppend(s.control.enabled, h.effects, h.state.control.enabled, t.effects, t.state.control.enabled);
    }
  }

  /** As written, the invalid-sensor DTC is never latched and the counter stays 0. */
  lemma {:induction false} SensorFaultNeverLatches(cal: Calibration, s: SteeringState, es: seq<Event>)
    requires !Dtc.Check(s.control.dtcs, InvalidSensorVal) && s.faultCount == 0
    ensures !Dtc.Check(Run(cal, s, es).state.control.dtcs, InvalidSensorVal)
    ensures Run(cal, s, es).state.faultCount == 0
    decreases |es|
  {
    if es != [] {
      SensorFaultNeverLatches(cal, Next(cal, s, es[0]).state, es[1..]);
    }
  }

  /** Every event is an override check whose channel difference stays within the threshold. */
  predicate SmallDifferences(cal: Calibration, es: seq<Event>)
  {
    forall i :: 0 <= i < |es| ==>
      es[i].OverrideCheck? && TorqueDifference(ReadTorqueSensor(es[i].rawA, es[i].rawB)) <= cal.torqueDifferenceOverrideThreshold
  }

  /**
   * The filter never overshoots: while every sampled difference is within
   * the threshold, starting from a filter within it, no override is ever
   * raised, control stays as it was and nothing is emitted.
   */
  lemma {:induction false} SmallDifferencesNeverOverride(cal: Calibration, s: SteeringState, es: seq<Event>)
    requires !s.control.operatorOverride
    requires s.filteredDiff <= cal.torqueDifferenceOverrideThreshold
    requires SmallDifferences(cal, es)
    ensures Run(cal, s, es).state.control.enabled == s.control.enabled
    ensures !Run(cal, s, es).state.control.operatorOverride
    ensures Run(cal, s, es).state.filteredDiff <= cal.torqueDifferenceOverrideThreshold
    ensures Run(cal, s, es).effects == []
    decreases |es|
  {
    if es != [] {
      var h := Next(cal, s, es[0]);
      assert SmallDifferences(cal, es[1..]) by {
        forall i | 0 <= i < |es[1..]|
          ensures es[1..][i].OverrideCheck?
            && TorqueDifference(ReadTorqueSensor(es[1..][i].rawA, es[1..][i].rawB)) <= cal.torqueDifferenceOverrideThreshold
        {
          assert es[1..][i] == es[i + 1];
        }
      }
      assert es[0].OverrideCheck?;
      SmallDifferencesNeverOverride(cal, h.state, es[1..]);
    }
  }

  /**
   * A freshly reset filter reacts at once: the first check after a
   * disable whose channel difference exceeds the threshold raises the
   * override immediately.
   */
  lemma ResetFilterCommitsOnFirstLargeDifference(cal: Calibration, s: SteeringState, t: SteeringTorque)
    requires s.control.enabled && s.filteredDiff == 0
    requires TorqueDifference(t) > cal.torqueDifferenceOverrideThreshold
    ensures var r := CheckForOperatorOverride(cal, s, t);
      !r.state.control.enabled && r.state.control.operatorOverride && r.state.filteredDiff == 0
  {
  }

  /** Disabling is idempotent. */
  lemma DisableIsIdempotent(s: SteeringState)
    ensures var d := DisableControl(s).state;
      DisableControl(d) == Step(d, [])
  {
  }
}
