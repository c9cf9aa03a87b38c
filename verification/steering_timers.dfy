/**
 * The steering module's periodic work (`timers.cpp`): the 5 Hz fault
 * check, which runs the controller-command watchdog, then the sensor
 * check, then re-arms the watchdog flag, all with interrupts masked.
 *
 * `check_for_controller_command_timeout` lives in the steering
 * communications file, which is not part of this model; it is a
 * parameter here, and the watchdog lemmas state what they need of it.
 */
module SteeringTimers {

  import opened Arduino
  import opened Actuation
  import opened SteeringControl
  import Dtc

  /** `FAULT_CHECK_FREQUENCY_IN_HZ`. */
  const FaultCheckFrequencyInHz: nat := 5

  /** The interval between two fault checks. */
  const FaultCheckPeriodMs: nat := 1000 / FaultCheckFrequencyInHz

  datatype Handler = CheckForFaultsHandler | PublishSteeringReport

  /** One `timerN_init(frequency, handler)` call. */
  datatype TimerRegistration = TimerRegistration(timer: nat, frequencyHz: nat, handler: Handler)

  /**
   * `start_timers`: the fault check on timer 1 every 200 ms, the report on
   * a separate timer (3) at the protocol's publish frequency.
   */
  function StartTimers(reportFrequencyHz: nat): (r: seq<TimerRegistration>)
    ensures |r| == 2 && r[0].timer != r[1].timer
    ensures r[0].handler == CheckForFaultsHandler && r[0].frequencyHz * FaultCheckPeriodMs == 1000
    ensures r[1].handler == PublishSteeringReport && r[1].frequencyHz == reportFrequencyHz
  {
    [ TimerRegistration(1, FaultCheckFrequencyInHz, CheckForFaultsHandler),
      TimerRegistration(3, reportFrequencyHz, PublishSteeringReport) ]
  }

  /**
   * `check_for_faults`: the watchdog check, then the sensor check on a
   * fresh torque reading, then `g_steering_command_timeout = true`. A
   * command arriving before the next tick clears the flag again. As
   * written the sensor check adds no effect and never changes the enabled
   * flag, so the tick acts on control exactly as the watchdog does.
   */
  function CheckForFaults(
    cal: Calibration,
    s: SteeringState,
    timeoutCheck: SteeringState -> Step<SteeringState>,
    rawA: AdcSample,
    rawB: AdcSample): (r: Step<SteeringState>)
    ensures r.state.commandTimeout
    ensures r.effects == timeoutCheck(s).effects
    ensures r.state.control.enabled == timeoutCheck(s).state.control.enabled
    ensures r.state.control.operatorOverride == timeoutCheck(s).state.control.operatorOverride
    ensures r.state.filteredDiff == timeoutCheck(s).state.filteredDiff
    ensures SensorCheckActive(timeoutCheck(s).state) ==>
      r.state.faultCount == 0 && !Dtc.Check(r.state.control.dtcs, InvalidSensorVal)
    ensures !SensorCheckActive(timeoutCheck(s).state) ==> r.state == timeoutCheck(s).state.(commandTimeout := true)
  {
    var w := timeoutCheck(s);
    var f := CheckForSensorFaults(cal, w.state, ReadTorqueSensor(rawA, rawB));
    Step(f.state.(commandTimeout := true), w.effects + f.effects)
  }

  /**
   * A watchdog that never enables control and leaves it enabled only when
   * the flag was cleared since the previous tick.
   */
  ghost predicate DisablesWhenArmed(timeoutCheck: SteeringState -> Step<SteeringState>)
  {
    forall x: SteeringState :: timeoutCheck(x).state.control.enabled ==> x.control.enabled && !x.commandTimeout
  }

  /** A watchdog that leaves the control state alone while its flag is cleared. */
  ghost predicate QuietWhenDisarmed(timeoutCheck: SteeringState -> Step<SteeringState>)
  {
    forall x: SteeringState :: !x.commandTimeout ==> timeoutCheck(x).state.control == x.control
  }

  /**
   * A silent link is caught within two ticks (at most 400 ms): whatever
   * the state, the first tick arms the flag, and unless a command clears
   * it the second tick leaves control disabled.
   */
  lemma SilentLinkDisablesWithinTwoTicks(
    cal: Calibration,
    s: SteeringState,
    timeoutCheck: SteeringState -> Step<SteeringState>,
    a1: AdcSample, b1: AdcSample, a2: AdcSample, b2: AdcSample)
    requires DisablesWhenArmed(timeoutCheck)
    ensures var t1 := CheckForFaults(cal, s, timeoutCheck, a1, b1).state;
      !CheckForFaults(cal, t1, timeoutCheck, a2, b2).state.control.enabled
  {
    var t1 := CheckForFaults(cal, s, timeoutCheck, a1, b1).state;
    assert timeoutCheck(t1).state.control.enabled ==> !t1.commandTimeout;
  }

  /**
   * A command between ticks (which clears the flag) keeps an enabled
   * module enabled through the next tick.
   */
  lemma CommandBetweenTicksKeepsControl(
    cal: Calibration,
    s: SteeringState,
    timeoutCheck: SteeringState -> Step<SteeringState>,
    a: AdcSample, b: AdcSample)
    requires QuietWhenDisarmed(timeoutCheck)
    requires s.control.enabled
    ensures var fed := s.(commandTimeout := false);
      var r := CheckForFaults(cal, fed, timeoutCheck, a, b);
      r.state.control.enabled && r.state.commandTimeout
  {
    var fed := s.(commandTimeout := false);
    assert timeoutCheck(fed).state.control == fed.control;
  }
}
