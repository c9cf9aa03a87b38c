/**
 * The throttle actuator (`throttle_control.cpp`, with the types of
 * `throttle_control.h`): an immediate (undebounced) operator-override
 * check against an EEPROM threshold, a live zero-channel sensor check
 * with a consecutive-invalid counter, output clamped into EEPROM-configured
 * ranges, and the enable/disable state machine (which, unlike brake and
 * steering, leaves the command-timeout flag alone).
 */
module ThrottleControl {

  import opened Arduino
  import Dtc
  import opened Actuation

  /** `OSCC_THROTTLE_DTC_INVALID_SENSOR_VAL`. */
  const InvalidSensorVal: Dtc.DtcBit := 0

  /** `OSCC_THROTTLE_DTC_OPERATOR_OVERRIDE`. */
  const OperatorOverride: Dtc.DtcBit := 1

  /**
   * `accelerator_position_s`: one acquisition of the two 16-bit pedal
   * channels, named `high`/`low` as `throttle_control.cpp` uses them.
   */
  datatype AcceleratorPosition = AcceleratorPosition(high: u16, low: u16)

  /** `g_eeprom_config`: the calibration loaded from EEPROM by `init_config`. */
  datatype EepromConfig = EepromConfig(
    spoofLowSignalRangeMin: u16,
    spoofLowSignalRangeMax: u16,
    spoofHighSignalRangeMin: u16,
    spoofHighSignalRangeMax: u16,
    pedalOverrideThreshold: u16,
    faultCheckFrequencyInHz: u16,
    reportPublishFrequencyInHz: u16)
  {
    function SpoofHighRange(): SignalRange { SignalRange(spoofHighSignalRangeMin, spoofHighSignalRangeMax) }
    function SpoofLowRange(): SignalRange { SignalRange(spoofLowSignalRangeMin, spoofLowSignalRangeMax) }
  }

  /** `g_throttle_control_state` plus the `fault_count` static of `check_for_sensor_faults`. */
  datatype ThrottleState = ThrottleState(control: ControlState, faultCount: int)

  /** `enable_control`: only from disabled and not overridden. */
  function EnableControl(s: ThrottleState): (r: Step<ThrottleState>)
    ensures r.state.control.enabled <==> s.control.enabled || !s.control.operatorOverride
    ensures r.state.control.enabled != s.control.enabled ==> r.effects == SwitchSpoof(true)
    ensures r.state.control.enabled == s.control.enabled ==> r == Step(s, [])
    ensures r.state.control.operatorOverride == s.control.operatorOverride
    ensures r.state.control.dtcs == s.control.dtcs && r.state.faultCount == s.faultCount
  {
    if !s.control.enabled && !s.control.operatorOverride then
      Step(s.(control := s.control.(enabled := true)), SwitchSpoof(true))
    else
      Step(s, [])
  }

  /** `disable_control`: a no-op unless enabled. */
  function DisableControl(s: ThrottleState): (r: Step<ThrottleState>)
    ensures !r.state.control.enabled
    ensures s.control.enabled ==> r.effects == SwitchSpoof(false)
    ensures !s.control.enabled ==> r == Step(s, [])
    ensures r.state.control.operatorOverride == s.control.operatorOverride
    ensures r.state.control.dtcs == s.control.dtcs && r.state.faultCount == s.faultCount
  {
    if s.control.enabled then
      Step(s.(control := s.control.(enabled := false)), SwitchSpoof(false))
    else
      Step(s, [])
  }

  predicate OverrideCheckActive(s: ThrottleState)
  {
    s.control.enabled || s.control.operatorOverride
  }

  /**
   * The channel average reaches the EEPROM override threshold. The sum of
   * the two 16-bit channels is formed in 16-bit unsigned arithmetic, so it
   * wraps before the widening to `uint32_t`.
   */
  predicate Pressed(cfg: EepromConfig, p: AcceleratorPosition)
  {
    AddU16(p.low, p.high) / 2 >= cfg.pedalOverrideThreshold
  }

  /**
   * Readings from the 10-bit ADC never reach the wrap: for them `Pressed`
   * is the plain average against the threshold.
   */
  lemma PressedOnAdcReadings(cfg: EepromConfig, p: AcceleratorPosition)
    requires p.high < 0x400 && p.low < 0x400
    ensures Pressed(cfg, p) <==> (p.low + p.high) / 2 >= cfg.pedalOverrideThreshold
  {
  }

  /**
   * `check_for_operator_override`: no debounce; a single pressed sample
   * disables, latches the DTC, reports and marks the override, a single
   * released sample clears both.
   */
  function CheckForOperatorOverride(cfg: EepromConfig, s: ThrottleState, p: AcceleratorPosition): (r: Step<ThrottleState>)
    ensures !OverrideCheckActive(s) ==> r == Step(s, [])
    ensures OverrideCheckActive(s) ==> OverrideExcludesEnabled(r.state.control)
    ensures OverrideCheckActive(s) && Pressed(cfg, p) ==>
      && !r.state.control.enabled
      && r.state.control.operatorOverride
      && Dtc.Check(r.state.control.dtcs, OperatorOverride)
      && r.effects == DisableControl(s).effects + [FaultReport(r.state.control.dtcs)]
    ensures OverrideCheckActive(s) && !Pressed(cfg, p) ==>
      && !r.state.control.operatorOverride
      && !Dtc.Check(r.state.control.dtcs, OperatorOverride)
      && r.state.control.enabled == s.control.enabled
      && r.effects == []
    ensures Dtc.Check(r.state.control.dtcs, InvalidSensorVal) == Dtc.Check(s.control.dtcs, InvalidSensorVal)
    ensures r.state.faultCount == s.faultCount
  {
    if !OverrideCheckActive(s) then
      Step(s, [])
    else if Pressed(cfg, p) then
      var d := DisableControl(s);
      var dtcs := Dtc.Set(d.state.control.dtcs, OperatorOverride);
      Step(d.state.(control := d.state.control.(dtcs := dtcs, operatorOverride := true)),
           d.effects + [FaultReport(dtcs)])
    else
      var c := s.control.(dtcs := Dtc.Clear(s.control.dtcs, OperatorOverride), operatorOverride := false);
      Step(s.(control := c), [])
  }

  /** A channel tied to ground reads zero: the sensor is disconnected. */
  predicate ReadingInvalid(p: AcceleratorPosition)
  {
    p.high == 0 || p.low == 0
  }

  predicate SensorCheckActive(s: ThrottleState)
  {
    s.control.enabled || Dtc.Check(s.control.dtcs, InvalidSensorVal)
  }

  /**
   * `check_for_sensor_faults`: an invalid reading bumps the counter and,
   * from the fourth consecutive one on, disables, latches the DTC and
   * reports; a valid reading clears the DTC and the counter at once.
   */
  function CheckForSensorFaults(s: ThrottleState, p: AcceleratorPosition): (r: Step<ThrottleState>)
    ensures !SensorCheckActive(s) ==> r == Step(s, [])
    ensures SensorCheckActive(s) && !ReadingInvalid(p) ==>
      && r.state.faultCount == 0
      && !Dtc.Check(r.state.control.dtcs, InvalidSensorVal)
      && r.state.control.enabled == s.control.enabled
      && r.effects == []
    ensures SensorCheckActive(s) && ReadingInvalid(p) ==> r.state.faultCount == s.faultCount + 1
    ensures SensorCheckActive(s) && ReadingInvalid(p) && s.faultCount + 1 < SensorValidityCheckFaultCount ==>
      r.state.control == s.control && r.effects == []
    ensures SensorCheckActive(s) && ReadingInvalid(p) && s.faultCount + 1 >= SensorValidityCheckFaultCount ==>
      && !r.state.control.enabled
      && Dtc.Check(r.state.control.dtcs, InvalidSensorVal)
      && r.effects == DisableControl(s).effects + [FaultReport(r.state.control.dtcs)]
    ensures r.state.control.operatorOverride == s.control.operatorOverride
    ensures Dtc.Check(r.state.control.dtcs, OperatorOverride) == Dtc.Check(s.control.dtcs, OperatorOverride)
  {
    if !SensorCheckActive(s) then
      Step(s, [])
    else if ReadingInvalid(p) then
      var n := s.faultCount + 1;
      if n >= SensorValidityCheckFaultCount then
        var d := DisableControl(s.(faultCount := n));
        var dtcs := Dtc.Set(d.state.control.dtcs, InvalidSensorVal);
        Step(d.state.(control := d.state.control.(dtcs := dtcs)), d.effects + [FaultReport(dtcs)])
      else
        Step(s.(faultCount := n), [])
    else
      var c := s.control.(dtcs := Dtc.Clear(s.control.dtcs, InvalidSensorVal));
      Step(s.(control := c, faultCount := 0), [])
  }

  /**
   * `update_throttle`: while enabled, write the high command clamped into
   * the configured high range to DAC A and the low command clamped into
   * the low range to DAC B. Because the ranges come from EEPROM they may
   * be inverted; `constrain` then yields one of the two bounds.
   */
  function UpdateThrottle(cfg: EepromConfig, s: ThrottleState, commandHigh: u16, commandLow: u16): (r: Step<ThrottleState>)
    ensures r.state == s
    ensures !s.control.enabled ==> r.effects == []
    ensures s.control.enabled ==> |r.effects| == 1 && r.effects[0].DacOutput?
    ensures s.control.enabled ==>
      r.effects[0].a == Clamp(commandHigh, cfg.SpoofHighRange()) && r.effects[0].b == Clamp(commandLow, cfg.SpoofLowRange())
    ensures s.control.enabled && cfg.SpoofHighRange().Valid() ==> cfg.SpoofHighRange().Contains(r.effects[0].a)
    ensures s.control.enabled && cfg.SpoofLowRange().Valid() ==> cfg.SpoofLowRange().Contains(r.effects[0].b)
  {
    if s.control.enabled then
      Step(s, [DacOutput(Clamp(commandHigh, cfg.SpoofHighRange()), Clamp(commandLow, cfg.SpoofLowRange()))])
    else
      Step(s, [])
  }

  /**
   * `check_accelerator_position_data` as `throttle_control.h` documents
   * it (`throttle_control.cpp` has no definition of it): the number of
   * range errors, one per violated bound, checked the way the brake and
   * steering analogues compare each channel against its range `>> 2`.
   */
  function CheckAcceleratorPositionData(cfg: EepromConfig, p: AcceleratorPosition): (r: u8)
    ensures r <= 4
    ensures r == 0 <==> InScaledRange(p.high, cfg.SpoofHighRange()) && InScaledRange(p.low, cfg.SpoofLowRange())
  {
    RangeErrorCount(p.high, p.low, cfg.SpoofHighRange(), cfg.SpoofLowRange())
  }

  datatype Event =
    | Enable
    | Disable
    | OverrideCheck(position: AcceleratorPosition)
    | SensorCheck(position: AcceleratorPosition)
    | Command(spoofHigh: u16, spoofLow: u16)

  function Next(cfg: EepromConfig, s: ThrottleState, e: Event): Step<ThrottleState>
  {
    match e
    case Enable => EnableControl(s)
    case Disable => DisableControl(s)
    case OverrideCheck(p) => CheckForOperatorOverride(cfg, s, p)
    case SensorCheck(p) => CheckForSensorFaults(s, p)
    case Command(h, l) => UpdateThrottle(cfg, s, h, l)
  }

  function Run(cfg: EepromConfig, s: ThrottleState, es: seq<Event>): Step<ThrottleState>
    decreases |es|
  {
    if es == [] then Step(s, [])
    else
      var h := Next(cfg, s, es[0]);
      var t := Run(cfg, h.state, es[1..]);
      Step(t.state, h.effects + t.effects)
  }

  lemma NextIsSafe(cfg: EepromConfig, s: ThrottleState, e: Event)
    requires OverrideExcludesEnabled(s.control)
    ensures OverrideExcludesEnabled(Next(cfg, s, e).state.control)
    ensures Guarded(Next(cfg, s, e).effects)
    ensures RelayTracks(s.control.enabled, Next(cfg, s, e).effects, Next(cfg, s, e).state.control.enabled)
  {
    var r := Next(cfg, s, e);
    match e
    case Enable =>
    case Disable =>
    case OverrideCheck(p) =>
      if OverrideCheckActive(s) && Pressed(cfg, p) {
        AppendFaultReport(DisableControl(s).effects, r.state.control.dtcs);
      }
    case SensorCheck(p) =>
      if SensorCheckActive(s) && ReadingInvalid(p) && s.faultCount + 1 >= SensorValidityCheckFaultCount {
        AppendFaultReport(DisableControl(s).effects, r.state.control.dtcs);
      }
    case Command(h, l) =>
      if s.control.enabled {
        assert r.effects[1..] == [];
      }
  }

  /**
   * Over any run from a safe state: never enabled while overridden, every
   * relay switch behind the discontinuity step, relay mirrors the flag.
   */
  lemma {:induction false} RunIsSafe(cfg: EepromConfig, s: ThrottleState, es: seq<Event>)
    requires OverrideExcludesEnabled(s.control)
    ensures OverrideExcludesEnabled(Run(cfg, s, es).state.control)
    ensures Guarded(Run(cfg, s, es).effects)
    ensures RelayTracks(s.control.enabled, Run(cfg, s, es).effects, Run(cfg, s, es).state.control.enabled)
    decreases |es|
  {
    if es != [] {
      var h := Next(cfg, s, es[0]);
      var t := Run(cfg, h.state, es[1..]);
      NextIsSafe(cfg, s, es[0]);
      RunIsSafe(cfg, h.state, es[1..]);
      GuardedAppend(h.effects, t.effects);
      RelayTracksAppend(s.control.enabled, h.effects, h.state.control.enabled, t.effects, t.state.control.enabled);
    }
  }

  /** All events are sensor checks on disconnected readings. */
  predicate AllInvalid(es: seq<Event>)
  {
    forall i :: 0 <= i < |es| ==> es[i].SensorCheck? && ReadingInvalid(es[i].position)
  }

  /**
   * Debouncing by count: a run of consecutive invalid readings adds one
   * to the counter per reading; below the threshold nothing else happens,
   * and once the counter reaches 4 control is disabled with the DTC
   * latched.
   */
  lemma {:induction false} InvalidRunCounts(cfg: EepromConfig, s: ThrottleState, es: seq<Event>)
    requires SensorCheckActive(s) && AllInvalid(es)
    ensures Run(cfg, s, es).state.faultCount == s.faultCount + |es|
    ensures s.faultCount + |es| < SensorValidityCheckFaultCount ==>
      Run(cfg, s, es).state.control == s.control && Run(cfg, s, es).effects == []
    ensures s.faultCount + |es| >= SensorValidityCheckFaultCount && es != [] ==>
      !Run(cfg, s, es).state.control.enabled && Dtc.Check(Run(cfg, s, es).state.control.dtcs, InvalidSensorVal)
    decreases |es|
  {
    if es != [] {
      var h := Next(cfg, s, es[0]);
      assert es[0].SensorCheck? && ReadingInvalid(es[0].position);
      assert AllInvalid(es[1..]) by {
        forall i | 0 <= i < |es[1..]| ensures es[1..][i].SensorCheck? && ReadingInvalid(es[1..][i].position) {
          assert es[1..][i] == es[i + 1];
        }
      }
      InvalidRunCounts(cfg, h.state, es[1..]);
    }
  }

  /**
   * The four-invalid-readings scenario: from enabled with a clear counter,
   * four disconnected readings leave the module disabled with the DTC
   * latched and exactly one fault report published.
   */
  lemma FourInvalidReadingsDisable(cfg: EepromConfig, s: ThrottleState, p: AcceleratorPosition)
    requires s.control.enabled && s.faultCount == 0 && ReadingInvalid(p)
    ensures var r := Run(cfg, s, [SensorCheck(p), SensorCheck(p), SensorCheck(p), SensorCheck(p)]);
      && !r.state.control.enabled
      && Dtc.Check(r.state.control.dtcs, InvalidSensorVal)
      && FaultReports(r.effects) == [r.state.control.dtcs]
  {
    var e := SensorCheck(p);
    var s1 := Next(cfg, s, e).state;
    var s2 := Next(cfg, s1, e).state;
    var s3 := Next(cfg, s2, e).state;
    var r4 := Next(cfg, s3, e);
    assert s3.control == s.control && s3.faultCount == 3;
    assert [e, e, e, e][1..] == [e, e, e];
    assert [e, e, e][1..] == [e, e];
    assert [e, e][1..] == [e];
    assert [e][1..] == [];
    assert Run(cfg, s3, [e]) == Step(r4.state, r4.effects + []);
    assert r4.effects + [] == r4.effects;
    assert Run(cfg, s2, [e, e]) == Step(r4.state, [] + r4.effects);
    assert Run(cfg, s1, [e, e, e]) == Step(r4.state, [] + r4.effects);
    assert Run(cfg, s, [e, e, e, e]) == Step(r4.state, [] + r4.effects);
    assert [] + r4.effects == r4.effects;
    AppendFaultReport(DisableControl(s3).effects, r4.state.control.dtcs);
  }

  /** The minimum-command scenario: a zero command is clamped to each range's minimum. */
  lemma ZeroCommandMapsToMinimum(cfg: EepromConfig, s: ThrottleState)
    requires s.control.enabled && cfg.SpoofHighRange().Valid() && cfg.SpoofLowRange().Valid()
    ensures UpdateThrottle(cfg, s, 0, 0).effects
      == [DacOutput(cfg.spoofHighSignalRangeMin, cfg.spoofLowSignalRangeMin)]
  {
  }

  /** Disabling is idempotent. */
  lemma DisableIsIdempotent(s: ThrottleState)
    ensures var d := DisableControl(s).state;
      DisableControl(d) == Step(d, [])
  {
  }
}
