/**
 * The brake actuator of the Kia Soul EV / Niro build (`brake_control.cpp`):
 * the debounced operator-override check, the consecutive-invalid sensor
 * counter, the clamped spoof output with its brake-light relay, and the
 * enable/disable state machine.
 *
 * The vehicle calibration (signal ranges, thresholds) is a parameter.
 */
module BrakeControl {

  import opened Arduino
  import Dtc
  import opened Actuation

  /** `OSCC_BRAKE_DTC_INVALID_SENSOR_VAL`. */
  const InvalidSensorVal: Dtc.DtcBit := 0

  /** `OSCC_BRAKE_DTC_OPERATOR_OVERRIDE`. */
  const OperatorOverride: Dtc.DtcBit := 1

  /** `DELAY`: how long (ms) a press must persist before the override is honoured. */
  const OverrideHoldMs: int := 100

  /** `brake_pedal_position_s`: one acquisition of the two pedal-position channels. */
  datatype BrakePedalPosition = BrakePedalPosition(a: u16, b: u16)

  /** The vehicle calibration the brake module is compiled with. */
  datatype Calibration = Calibration(
    spoofA: SignalRange,          // BRAKE_SPOOF_A_SIGNAL_RANGE_MIN .. _MAX
    spoofB: SignalRange,          // BRAKE_SPOOF_B_SIGNAL_RANGE_MIN .. _MAX
    lightThresholdA: int,         // BRAKE_LIGHT_SPOOF_A_THRESHOLD
    lightThresholdB: int,         // BRAKE_LIGHT_SPOOF_B_THRESHOLD
    pedalOverrideThreshold: int)  // BRAKE_PEDAL_OVERRIDE_THRESHOLD
  {
    predicate Valid() { spoofA.Valid() && spoofB.Valid() }
  }

  /**
   * The brake module's state: `g_brake_control_state`, the command
   * watchdog flag `g_brake_command_timeout`, and the two file statics
   * `TIME_LAST_SEEN` (0 while the hold timer is not started) and the
   * sensor-fault `fault_count`.
   */
  datatype BrakeState = BrakeState(
    control: ControlState,
    commandTimeout: bool,
    timeLastSeen: u32,
    faultCount: int)

  /** Zero-initialised globals and statics, control disabled. */
  const Initial: BrakeState := BrakeState(Disabled, false, 0, 0)

  /** `enable_control`: only from disabled and not overridden. */
  function EnableControl(s: BrakeState): (r: Step<BrakeState>)
    ensures r.state.control.enabled <==> s.control.enabled || !s.control.operatorOverride
    ensures r.state.control.enabled != s.control.enabled ==>
      !r.state.commandTimeout && r.effects == SwitchSpoof(true)
    ensures r.state.control.enabled == s.control.enabled ==> r == Step(s, [])
    ensures r.state.control.operatorOverride == s.control.operatorOverride
    ensures r.state.control.dtcs == s.control.dtcs
    ensures r.state.timeLastSeen == s.timeLastSeen && r.state.faultCount == s.faultCount
  {
    if !s.control.enabled && !s.control.operatorOverride then
      Step(s.(control := s.control.(enabled := true), commandTimeout := false), SwitchSpoof(true))
    else
      Step(s, [])
  }

  /** `disable_control`: a no-op unless enabled. */
  function DisableControl(s: BrakeState): (r: Step<BrakeState>)
    ensures !r.state.control.enabled
    ensures s.control.enabled ==> !r.state.commandTimeout && r.effects == SwitchSpoof(false)
    ensures !s.control.enabled ==> r == Step(s, [])
    ensures r.state.control.operatorOverride == s.control.operatorOverride
    ensures r.state.control.dtcs == s.control.dtcs
    ensures r.state.timeLastSeen == s.timeLastSeen && r.state.faultCount == s.faultCount
  {
    if s.control.enabled then
      Step(s.(control := s.control.(enabled := false), commandTimeout := false), SwitchSpoof(false))
    else
      Step(s, [])
  }

  /** The override and sensor checks run only while enabled or already overridden / latched. */
  predicate OverrideCheckActive(s: BrakeState)
  {
    s.control.enabled || s.control.operatorOverride
  }

  /**
   * The channel average reaches the override threshold. The two 16-bit
   * channels are added in 16-bit unsigned arithmetic before the widening
   * to `uint32_t`, so the sum wraps.
   */
  predicate Pressed(cal: Calibration, p: BrakePedalPosition)
  {
    AddU16(p.a, p.b) / 2 >= cal.pedalOverrideThreshold
  }

  /**
   * Readings from the 10-bit ADC never reach the wrap: for them `Pressed`
   * is the plain average against the threshold.
   */
  lemma PressedOnAdcReadings(cal: Calibration, p: BrakePedalPosition)
    requires p.a < 0x400 && p.b < 0x400
    ensures Pressed(cal, p) <==> (p.a + p.b) / 2 >= cal.pedalOverrideThreshold
  {
  }

  /**
   * `check_for_operator_override`: a press is honoured only once it has
   * been seen at two samples more than `DELAY` ms apart (unsigned 32-bit
   * difference); any release resets the hold timer and the override.
   * `now` stands for both `millis()` readings of one call.
   */
  function CheckForOperatorOverride(cal: Calibration, s: BrakeState, p: BrakePedalPosition, now: u32)
    : (r: Step<BrakeState>)
    ensures !OverrideCheckActive(s) ==> r == Step(s, [])
    ensures OverrideExcludesEnabled(s.control) ==> OverrideExcludesEnabled(r.state.control)
    ensures OverrideCheckActive(s) && !Pressed(cal, p) ==>
      && !r.state.control.operatorOverride
      && !Dtc.Check(r.state.control.dtcs, OperatorOverride)
      && r.state.timeLastSeen == 0
      && r.state.control.enabled == s.control.enabled
      && r.effects == []
    ensures OverrideCheckActive(s) && Pressed(cal, p) && s.timeLastSeen == 0 ==>
      r == Step(s.(timeLastSeen := now), [])
    ensures OverrideCheckActive(s) && Pressed(cal, p) && s.timeLastSeen != 0
            && Elapsed(now, s.timeLastSeen) <= OverrideHoldMs ==>
      r == Step(s, [])
    ensures OverrideCheckActive(s) && Pressed(cal, p) && s.timeLastSeen != 0
            && Elapsed(now, s.timeLastSeen) > OverrideHoldMs ==>
      && !r.state.control.enabled
      && r.state.control.operatorOverride
      && Dtc.Check(r.state.control.dtcs, OperatorOverride)
      && r.effects == DisableControl(s).effects + [FaultReport(r.state.control.dtcs)]
    ensures Dtc.Check(r.state.control.dtcs, InvalidSensorVal) == Dtc.Check(s.control.dtcs, InvalidSensorVal)
    ensures r.state.faultCount == s.faultCount
  {
    if !OverrideCheckActive(s) then
      Step(s, [])
    else if Pressed(cal, p) then
      if s.timeLastSeen == 0 then
        Step(s.(timeLastSeen := now), [])
      else if Elapsed(now, s.timeLastSeen) > OverrideHoldMs then
        var d := DisableControl(s);
        var dtcs := Dtc.Set(d.state.control.dtcs, OperatorOverride);
        var c := d.state.control.(dtcs := dtcs, operatorOverride := true);
        Step(d.state.(control := c), d.effects + [FaultReport(dtcs)])
      else
        Step(s, [])
    else
      var c := s.control.(dtcs := Dtc.Clear(s.control.dtcs, OperatorOverride), operatorOverride := false);
      Step(s.(timeLastSeen := 0, control := c), [])
  }

  /**
   * `check_brake_pedal_position_data` as written: the four range
   * comparisons are computed, then `return 0;` discards them, so every
   * reading is reported valid.
   */
  function CheckBrakePedalPositionData(cal: Calibration, p: BrakePedalPosition): (r: u8)
    ensures r == 0
  {
    0
  }

  /**
   * The counter logic of `check_for_sensor_faults` given the validity
   * verdict: slow to latch (the fourth consecutive invalid reading, and
   * every one after it, disables and latches the DTC), instant to clear.
   */
  function SensorFaultStep(s: BrakeState, invalid: bool): (r: Step<BrakeState>)
    ensures !invalid ==>
      && r.state.faultCount == 0
      && !Dtc.Check(r.state.control.dtcs, InvalidSensorVal)
      && r.state.control.enabled == s.control.enabled
      && r.effects == []
    ensures invalid ==> r.state.faultCount == s.faultCount + 1
    ensures invalid && s.faultCount + 1 < SensorValidityCheckFaultCount ==>
      r.state.control == s.control && r.effects == []
    ensures invalid && s.faultCount + 1 >= SensorValidityCheckFaultCount ==>
      && !r.state.control.enabled
      && Dtc.Check(r.state.control.dtcs, InvalidSensorVal)
      && r.effects == DisableControl(s).effects + [FaultReport(r.state.control.dtcs)]
    ensures r.state.control.operatorOverride == s.control.operatorOverride
    ensures Dtc.Check(r.state.control.dtcs, OperatorOverride) == Dtc.Check(s.control.dtcs, OperatorOverride)
    ensures r.state.timeLastSeen == s.timeLastSeen
  {
    if invalid then
      var n := s.faultCount + 1;
      if n >= SensorValidityCheckFaultCount then
        var d := DisableControl(s.(faultCount := n));
        var dtcs := Dtc.Set(d.state.control.dtcs, InvalidSensorVal);
        Step(d.state.(control := d.state.control.(dtcs := dtcs)), d.effects + [FaultReport(dtcs)])
      else
        Step(s.(faultCount := n), [])
    else
      var c := s.control.(dtcs := Dtc.Clear(s.control.dtcs, InvalidSensorVal));
      Step(s.(control := c, faultCount := 0), [])
  }

  predicate SensorCheckActive(s: BrakeState)
  {
    s.control.enabled || Dtc.Check(s.control.dtcs, InvalidSensorVal)
  }

  /**
   * `check_for_sensor_faults` as written: because the range check
   * always answers "valid", an active check only ever clears the DTC and
   * resets the counter; it never disables and never reports.
   */
  function CheckForSensorFaults(cal: Calibration, s: BrakeState, p: BrakePedalPosition): (r: Step<BrakeState>)
    ensures !SensorCheckActive(s) ==> r == Step(s, [])
    ensures SensorCheckActive(s) ==>
      && r.state.faultCount == 0
      && !Dtc.Check(r.state.control.dtcs, InvalidSensorVal)
      && r.state.control.enabled == s.control.enabled
      && r.state.control.operatorOverride == s.control.operatorOverride
      && r.effects == []
    ensures Dtc.Check(r.state.control.dtcs, OperatorOverride) == Dtc.Check(s.control.dtcs, OperatorOverride)
    ensures r.state.timeLastSeen == s.timeLastSeen && r.state.commandTimeout == s.commandTimeout
  {
    if SensorCheckActive(s) then
      SensorFaultStep(s, CheckBrakePedalPositionData(cal, p) != 0)
    else
      Step(s, [])
  }

  /**
   * `update_brake`: while enabled, clamp each command into its channel
   * range, drive the brake light from strict thresholds on the clamped
   * values, then write both DAC channels. No effect while disabled.
   */
  function UpdateBrake(cal: Calibration, s: BrakeState, commandA: u16, commandB: u16): (r: Step<BrakeState>)
    ensures r.state == s
    ensures !s.control.enabled ==> r.effects == []
    ensures s.control.enabled ==>
      |r.effects| == 2 && r.effects[0].BrakeLight? && r.effects[1].DacOutput?
    ensures s.control.enabled ==>
      (r.effects[0].on <==> r.effects[1].a > cal.lightThresholdA || r.effects[1].b > cal.lightThresholdB)
    ensures s.control.enabled ==>
      r.effects[1].a == Clamp(commandA, cal.spoofA) && r.effects[1].b == Clamp(commandB, cal.spoofB)
    ensures s.control.enabled && cal.Valid() ==>
      cal.spoofA.Contains(r.effects[1].a) && cal.spoofB.Contains(r.effects[1].b)
  {
    if s.control.enabled then
      var spoofA := Clamp(commandA, cal.spoofA);
      var spoofB := Clamp(commandB, cal.spoofB);
      var light := spoofA > cal.lightThresholdA || spoofB > cal.lightThresholdB;
      Step(s, [BrakeLight(light), DacOutput(spoofA, spoofB)])
    else
      Step(s, [])
  }

  /** Everything that can happen to the brake module, one atomic step at a time. */
  datatype Event =
    | Enable
    | Disable
    | OverrideCheck(position: BrakePedalPosition, now: u32)
    | SensorCheck(position: BrakePedalPosition)
    | Command(spoofA: u16, spoofB: u16)

  function Next(cal: Calibration, s: BrakeState, e: Event): Step<BrakeState>
  {
    match e
    case Enable => EnableControl(s)
    case Disable => DisableControl(s)
    case OverrideCheck(p, now) => CheckForOperatorOverride(cal, s, p, now)
    case SensorCheck(p) => CheckForSensorFaults(cal, s, p)
    case Command(a, b) => UpdateBrake(cal, s, a, b)
  }

  /** Runs a sequence of events, concatenating their effects. */
  function Run(cal: Calibration, s: BrakeState, es: seq<Event>): Step<BrakeState>
    decreases |es|
  {
    if es == [] then Step(s, [])
    else
      var h := Next(cal, s, es[0]);
      var t := Run(cal, h.state, es[1..]);
      Step(t.state, h.effects + t.effects)
  }

  /**
   * One step keeps the safety invariant, switches the relay only behind
   * the discontinuity step, and moves the relay exactly as the enabled
   * flag moves.
   */
  lemma NextIsSafe(cal: Calibration, s: BrakeState, e: Event)
    requires OverrideExcludesEnabled(s.control)
    ensures OverrideExcludesEnabled(Next(cal, s, e).state.control)
    ensures Guarded(Next(cal, s, e).effects)
    ensures RelayTracks(s.control.enabled, Next(cal, s, e).effects, Next(cal, s, e).state.control.enabled)
  {
    var r := Next(cal, s, e);
    match e
    case Enable =>
    case Disable =>
    case OverrideCheck(p, now) =>
      if OverrideCheckActive(s) && Pressed(cal, p) && s.timeLastSeen != 0
         && Elapsed(now, s.timeLastSeen) > OverrideHoldMs {
        AppendFaultReport(DisableControl(s).effects, r.state.control.dtcs);
      }
    case SensorCheck(p) =>
    case Command(a, b) =>
      if s.control.enabled {
        assert r.effects[1..][1..] == [];
        assert RelayLog(r.effects[1..]) == [];
      }
  }

  /**
   * Over any run from a safe state: `enabled && operator_override` never
   * holds, every relay switch follows the discontinuity step, and the
   * relay ends where the enabled flag ends.
   */
  lemma {:induction false} RunIsSafe(cal: Calibration, s: BrakeState, es: seq<Event>)
    requires OverrideExcludesEnabled(s.control)
    ensures OverrideExcludesEnabled(Run(cal, s, es).state.control)
    ensures Guarded(Run(cal, s, es).effects)
    ensures RelayTracks(s.control.enabled, Run(cal, s, es).effects, Run(cal, s, es).state.control.enabled)
    decreases |es|
  {
    if es != [] {
      var h := Next(cal, s, es[0]);
      var t := Run(cal, h.state, es[1..]);
      NextIsSafe(cal, s, es[0]);
      RunIsSafe(cal, h.state, es[1..]);
      GuardedAppend(h.effects, t.effects);
      RelayTracksAppend(s.control.enabled, h.effects, h.state.control.enabled, t.effects, t.state.control.enabled);
    }
  }

  /**
   * Because the range check always answers "valid", the invalid-sensor
   * DTC is never latched and the counter never leaves 0 on this build.
   */
  lemma {:induction false} SensorFaultNeverLatches(cal: Calibration, s: BrakeState, es: seq<Event>)
    requires !Dtc.Check(s.control.dtcs, InvalidSensorVal) && s.faultCount == 0
    ensures !Dtc.Check(Run(cal, s, es).state.control.dtcs, InvalidSensorVal)
    ensures Run(cal, s, es).state.faultCount == 0
    decreases |es|
  {
    if es != [] {
      SensorFaultNeverLatches(cal, Next(cal, s, es[0]).state, es[1..]);
    }
  }

  /**
   * Debounce: while every sample stays pressed and within `DELAY` ms of
   * the sample that started the hold timer, nothing changes at all.
   */
  lemma {:induction false} PressWithinHoldIsIgnored(cal: Calibration, s: BrakeState, es: seq<Event>)
    requires s.control.enabled && s.timeLastSeen != 0
    requires forall i :: 0 <= i < |es| ==>
      es[i].OverrideCheck? && Pressed(cal, es[i].position)
      && Elapsed(es[i].now, s.timeLastSeen) <= OverrideHoldMs
    ensures Run(cal, s, es) == Step(s, [])
    decreases |es|
  {
    if es != [] {
      PressWithinHoldIsIgnored(cal, s, es[1..]);
    }
  }

  /**
   * A press held from a first sample at `t0` to a later sample more than
   * `DELAY` ms after it commits the override: disabled, overridden, DTC
   * latched, exactly one fault report, carrying that DTC.
   */
  lemma HeldPressCommitsOverride(cal: Calibration, s: BrakeState, p: BrakePedalPosition, q: BrakePedalPosition, t0: u32, t1: u32)
    requires s.control.enabled && !s.control.operatorOverride && s.timeLastSeen == 0
    requires Pressed(cal, p) && Pressed(cal, q) && t0 != 0 && Elapsed(t1, t0) > OverrideHoldMs
    ensures var r := Run(cal, s, [OverrideCheck(p, t0), OverrideCheck(q, t1)]);
      && !r.state.control.enabled
      && r.state.control.operatorOverride
      && Dtc.Check(r.state.control.dtcs, OperatorOverride)
      && FaultReports(r.effects) == [r.state.control.dtcs]
  {
    var es := [OverrideCheck(p, t0), OverrideCheck(q, t1)];
    var r1 := Next(cal, s, es[0]);
    assert r1 == Step(s.(timeLastSeen := t0), []);
    var r2 := Next(cal, r1.state, es[1]);
    assert es[1..][1..] == [];
    assert Run(cal, r1.state, es[1..]) == Step(r2.state, r2.effects + []);
    assert Run(cal, s, es) == Step(r2.state, [] + (r2.effects + []));
    assert [] + (r2.effects + []) == r2.effects;
    AppendFaultReport(DisableControl(r1.state).effects, r2.state.control.dtcs);
  }

  /**
   * As written, the hold timer is reset only by a released sample, not by
   * enable or disable: a timer left running from an earlier press lets
   * the first pressed sample after re-enabling commit at once.
   */
  lemma StaleHoldTimerCommitsAtOnce(cal: Calibration, s: BrakeState, p: BrakePedalPosition, now: u32)
    requires !s.control.enabled && !s.control.operatorOverride && s.timeLastSeen != 0
    requires Pressed(cal, p) && Elapsed(now, s.timeLastSeen) > OverrideHoldMs
    ensures var e := EnableControl(s).state;
      CheckForOperatorOverride(cal, e, p, now).state.control.operatorOverride
  {
  }

  /**
   * A commit does not reset the hold timer: while the pedal stays pressed
   * after an override, every later check more than `DELAY` ms after the
   * first press publishes one more fault report and changes nothing else.
   */
  lemma OverrideRepublishesWhileHeld(cal: Calibration, s: BrakeState, p: BrakePedalPosition, now: u32)
    requires !s.control.enabled && s.control.operatorOverride && Dtc.Check(s.control.dtcs, OperatorOverride)
    requires s.timeLastSeen != 0 && Pressed(cal, p) && Elapsed(now, s.timeLastSeen) > OverrideHoldMs
    ensures var r := CheckForOperatorOverride(cal, s, p, now);
      r.state == s && r.effects == [FaultReport(s.control.dtcs)]
  {
    var r := CheckForOperatorOverride(cal, s, p, now);
    forall b: Dtc.DtcBit ensures Dtc.Check(r.state.control.dtcs, b) <==> Dtc.Check(s.control.dtcs, b) {
    }
    Dtc.BitsDetermineField(r.state.control.dtcs, s.control.dtcs);
  }

  /** Disabling is idempotent: a second disable changes nothing and emits nothing. */
  lemma DisableIsIdempotent(s: BrakeState)
    ensures var d := DisableControl(s).state;
      DisableControl(d) == Step(d, [])
  {
  }
}
