/**
 * The Kia Soul CAN gateway (`can_gateway/src/communications.cpp`): it
 * listens to the vehicle's OBD bus, keeps per-signal receive timestamps,
 * heartbeat warning bits and chassis-state-1 validity flags, copies the
 * decoded values into the outgoing chassis-state reports, and republishes
 * each report once its interval has elapsed.
 *
 * OBD identifiers, payload layouts, timeouts, report identifiers and
 * intervals come from protocol headers that are not part of this model;
 * they are fields of `ObdProtocol`. `GET_TIMESTAMP_MS` is the parameter
 * `now`, and the library's `is_timeout` and `get_time_delta` are
 * function parameters.
 */
module GatewayCommunications {

  import opened Arduino
  import opened Wrappers
  import opened Can

  /** The OBD signals the gateway tracks, in `process_rx_frame`'s test order. */
  datatype Signal =
    | SteeringWheelAngle
    | WheelSpeed
    | BrakePressure
    | TurnSignal
    | VehicleSpeed
    | EngineRpmTemp
    | GearPosition
    | AcceleratorPosition

  /** The `OSCC_REPORT_CHASSIS_STATE_1_FLAGS_BIT_*` flags. */
  datatype Chassis1Flag =
    | SteerWheelAngleValid
    | SteerWheelAngleRateValid
    | WheelSpeedValid
    | BrakePressureValid
    | LeftTurnSignalOn
    | RightTurnSignalOn
    | BrakeSignalOn

  /** The four periodic reports. */
  datatype Report = Heartbeat | ChassisState1 | ChassisState2 | ChassisState3

  datatype WheelSpeeds = WheelSpeeds(frontLeft: int, frontRight: int, rearLeft: int, rearRight: int)

  /** The OBD protocol and the gateway's report protocol. */
  datatype ObdProtocol = ObdProtocol(
    id: Signal -> nat,                          // KIA_SOUL_OBD_*_CAN_ID
    rxTimeout: Signal -> u32,                   // KIA_SOUL_OBD_*_RX_WARN_TIMEOUT_IN_MSEC
    steeringAngle: FrameData -> int,            // kia_soul_obd_steering_wheel_angle_data_s.steering_angle
    wheelSpeeds: FrameData -> WheelSpeeds,      // kia_soul_obd_wheel_speed_data_s
    masterCylinderPressure: FrameData -> int,   // kia_soul_obd_brake_pressure_data_s
    turnSignalFlags: FrameData -> int,          // kia_soul_obd_turn_signal_data_s.turn_signal_flags
    leftTurnFlag: int,                          // KIA_SOUL_OBD_TURN_SIGNAL_FLAG_LEFT_TURN
    rightTurnFlag: int,                         // KIA_SOUL_OBD_TURN_SIGNAL_FLAG_RIGHT_TURN
    vehicleSpeed: FrameData -> int,             // kia_soul_obd_vehicle_speed_data_s
    engineRpm: FrameData -> int,                // kia_soul_obd_engine_rpm_temp_data_s.engine_rpm
    engineTemp: FrameData -> int,               // kia_soul_obd_engine_rpm_temp_data_s.engine_temp
    gearPosition: FrameData -> int,             // kia_soul_obd_gear_position_data_s
    acceleratorPedalPosition: FrameData -> int, // kia_soul_obd_accelerator_pedal_position_data_s
    reportId: Report -> nat,                    // OSCC_REPORT_*_CAN_ID (heartbeat: before the node offset)
    gatewayNodeId: nat,                         // OSCC_MODULE_CAN_GATEWAY_NODE_ID
    hardwareVersion: u8,                        // OSCC_MODULE_CAN_GATEWAY_VERSION_HARDWARE
    firmwareVersion: u8,                        // OSCC_MODULE_CAN_GATEWAY_VERSION_FIRMWARE
    interval: Report -> u32)                    // OSCC_REPORT_*_PUBLISH_INTERVAL_IN_MSEC

  /** The values the chassis-state reports carry. */
  datatype ChassisData = ChassisData(
    steeringWheelAngle: int,
    steeringWheelAngleRate: int,
    brakePressure: int,
    wheelSpeeds: WheelSpeeds,
    vehicleSpeed: int,
    engineRpm: int,
    engineTemp: int,
    gearPosition: int,
    acceleratorPedalPosition: int)

  /**
   * The gateway's globals: heartbeat warning bits (one per signal),
   * chassis-state-1 flags, report data, the `g_obd_*_rx_timestamp`s and
   * the reports' `timestamp` fields (absent entries are the zero the
   * globals start with).
   */
  datatype GatewayState = GatewayState(
    warnings: set<Signal>,
    flags: set<Chassis1Flag>,
    data: ChassisData,
    rxStamps: map<Signal, u32>,
    txStamps: map<Report, u32>)

  function RxStamp(st: GatewayState, s: Signal): u32
  {
    if s in st.rxStamps then st.rxStamps[s] else 0
  }

  function TxStamp(st: GatewayState, r: Report): u32
  {
    if r in st.txStamps then st.txStamps[r] else 0
  }

  /** The signal whose frames set a flag and whose timeout clears it. */
  function Owner(f: Chassis1Flag): Signal
  {
    match f
    case SteerWheelAngleValid => SteeringWheelAngle
    case SteerWheelAngleRateValid => SteeringWheelAngle
    case WheelSpeedValid => WheelSpeed
    case BrakePressureValid => BrakePressure
    case LeftTurnSignalOn => TurnSignal
    case RightTurnSignalOn => TurnSignal
    case BrakeSignalOn => TurnSignal
  }

  /** What every `process_obd_*` does first and last: clear its warning, stamp its receipt. */
  function Received(st: GatewayState, s: Signal, now: u32): (r: GatewayState)
    ensures r.warnings == st.warnings - {s}
    ensures RxStamp(r, s) == now
    ensures forall t :: t != s ==> RxStamp(r, t) == RxStamp(st, t)
    ensures r.flags == st.flags && r.data == st.data && r.txStamps == st.txStamps
  {
    st.(warnings := st.warnings - {s}, rxStamps := st.rxStamps[s := now])
  }

  /** `process_obd_steering_wheel_angle`: angle valid, rate invalid and zeroed, angle copied. */
  function ProcessObdSteeringWheelAngle(p: ObdProtocol, st: GatewayState, d: FrameData, now: u32): (r: GatewayState)
    ensures r.warnings == st.warnings - {SteeringWheelAngle}
    ensures SteerWheelAngleValid in r.flags && SteerWheelAngleRateValid !in r.flags
    ensures forall f :: Owner(f) != SteeringWheelAngle ==> (f in r.flags <==> f in st.flags)
    ensures r.data == st.data.(steeringWheelAngle := p.steeringAngle(d), steeringWheelAngleRate := 0)
    ensures RxStamp(r, SteeringWheelAngle) == now
  {
    var g := Received(st, SteeringWheelAngle, now);
    g.(flags := (g.flags + {SteerWheelAngleValid}) - {SteerWheelAngleRateValid},
       data := g.data.(steeringWheelAngleRate := 0, steeringWheelAngle := p.steeringAngle(d)))
  }

  /** `process_obd_wheel_speed`: wheel speed valid, the four speeds copied. */
  function ProcessObdWheelSpeed(p: ObdProtocol, st: GatewayState, d: FrameData, now: u32): (r: GatewayState)
    ensures r.warnings == st.warnings - {WheelSpeed}
    ensures r.flags == st.flags + {WheelSpeedValid}
    ensures r.data == st.data.(wheelSpeeds := p.wheelSpeeds(d))
    ensures RxStamp(r, WheelSpeed) == now
  {
    var g := Received(st, WheelSpeed, now);
    g.(flags := g.flags + {WheelSpeedValid}, data := g.data.(wheelSpeeds := p.wheelSpeeds(d)))
  }

  /** `process_obd_brake_pressure`: brake pressure valid, master-cylinder pressure copied. */
  function ProcessObdBrakePressure(p: ObdProtocol, st: GatewayState, d: FrameData, now: u32): (r: GatewayState)
    ensures r.warnings == st.warnings - {BrakePressure}
    ensures r.flags == st.flags + {BrakePressureValid}
    ensures r.data == st.data.(brakePressure := p.masterCylinderPressure(d))
    ensures RxStamp(r, BrakePressure) == now
  {
    var g := Received(st, BrakePressure, now);
    g.(flags := g.flags + {BrakePressureValid}, data := g.data.(brakePressure := p.masterCylinderPressure(d)))
  }

  /**
   * `process_obd_turn_signal`: clear left, right and brake signal, then
   * set left on the left-turn code, otherwise right on the right-turn
   * code. At most one turn signal is on and the brake signal never is.
   */
  function ProcessObdTurnSignal(p: ObdProtocol, st: GatewayState, d: FrameData, now: u32): (r: GatewayState)
    ensures r.warnings == st.warnings - {TurnSignal}
    ensures LeftTurnSignalOn in r.flags <==> p.turnSignalFlags(d) == p.leftTurnFlag
    ensures RightTurnSignalOn in r.flags <==> p.turnSignalFlags(d) != p.leftTurnFlag && p.turnSignalFlags(d) == p.rightTurnFlag
    ensures BrakeSignalOn !in r.flags
    ensures forall f :: Owner(f) != TurnSignal ==> (f in r.flags <==> f in st.flags)
    ensures r.data == st.data
    ensures RxStamp(r, TurnSignal) == now
  {
    var g := Received(st, TurnSignal, now);
    var cleared := g.flags - {LeftTurnSignalOn, RightTurnSignalOn, BrakeSignalOn};
    var flags :=
      if p.turnSignalFlags(d) == p.leftTurnFlag then cleared + {LeftTurnSignalOn}
      else if p.turnSignalFlags(d) == p.rightTurnFlag then cleared + {RightTurnSignalOn}
      else cleared;
    g.(flags := flags)
  }

  /** `process_obd_vehicle_speed`: value copied, no flag. */
  function ProcessObdVehicleSpeed(p: ObdProtocol, st: GatewayState, d: FrameData, now: u32): (r: GatewayState)
    ensures r.warnings == st.warnings - {VehicleSpeed} && r.flags == st.flags
    ensures r.data == st.data.(vehicleSpeed := p.vehicleSpeed(d))
    ensures RxStamp(r, VehicleSpeed) == now
  {
    var g := Received(st, VehicleSpeed, now);
    g.(data := g.data.(vehicleSpeed := p.vehicleSpeed(d)))
  }

  /** `process_obd_engine_rpm_temp`: both values copied, no flag. */
  function ProcessObdEngineRpmTemp(p: ObdProtocol, st: GatewayState, d: FrameData, now: u32): (r: GatewayState)
    ensures r.warnings == st.warnings - {EngineRpmTemp} && r.flags == st.flags
    ensures r.data == st.data.(engineRpm := p.engineRpm(d), engineTemp := p.engineTemp(d))
    ensures RxStamp(r, EngineRpmTemp) == now
  {
    var g := Received(st, EngineRpmTemp, now);
    g.(data := g.data.(engineRpm := p.engineRpm(d), engineTemp := p.engineTemp(d)))
  }

  /** `process_obd_gear_position`: value copied, no flag. */
  function ProcessObdGearPosition(p: ObdProtocol, st: GatewayState, d: FrameData, now: u32): (r: GatewayState)
    ensures r.warnings == st.warnings - {GearPosition} && r.flags == st.flags
    ensures r.data == st.data.(gearPosition := p.gearPosition(d))
    ensures RxStamp(r, GearPosition) == now
  {
    var g := Received(st, GearPosition, now);
    g.(data := g.data.(gearPosition := p.gearPosition(d)))
  }

  /** `process_obd_accelerator_pedal_position`: value copied, no flag. */
  function ProcessObdAcceleratorPedalPosition(p: ObdProtocol, st: GatewayState, d: FrameData, now: u32): (r: GatewayState)
    ensures r.warnings == st.warnings - {AcceleratorPosition} && r.flags == st.flags
    ensures r.data == st.data.(acceleratorPedalPosition := p.acceleratorPedalPosition(d))
    ensures RxStamp(r, AcceleratorPosition) == now
  {
    var g := Received(st, AcceleratorPosition, now);
    g.(data := g.data.(acceleratorPedalPosition := p.acceleratorPedalPosition(d)))
  }

  /** The `if / else if` identifier chain of `process_rx_frame`. */
  function DecodeSignal(p: ObdProtocol, id: nat): (r: Option<Signal>)
    ensures r.Some? ==> p.id(r.value) == id
    ensures r.None? <==> forall s: Signal :: p.id(s) != id
  {
    if id == p.id(SteeringWheelAngle) then Some(SteeringWheelAngle)
    else if id == p.id(WheelSpeed) then Some(WheelSpeed)
    else if id == p.id(BrakePressure) then Some(BrakePressure)
    else if id == p.id(TurnSignal) then Some(TurnSignal)
    else if id == p.id(VehicleSpeed) then Some(VehicleSpeed)
    else if id == p.id(EngineRpmTemp) then Some(EngineRpmTemp)
    else if id == p.id(GearPosition) then Some(GearPosition)
    else if id == p.id(AcceleratorPosition) then Some(AcceleratorPosition)
    else
      NoSignalHasId(p, id);
      None
  }

  lemma NoSignalHasId(p: ObdProtocol, id: nat)
    requires id != p.id(SteeringWheelAngle) && id != p.id(WheelSpeed)
    requires id != p.id(BrakePressure) && id != p.id(TurnSignal)
    requires id != p.id(VehicleSpeed) && id != p.id(EngineRpmTemp)
    requires id != p.id(GearPosition) && id != p.id(AcceleratorPosition)
    ensures forall s: Signal :: p.id(s) != id
  {
    forall s: Signal ensures p.id(s) != id {
      match s
      case SteeringWheelAngle =>
      case WheelSpeed =>
      case BrakePressure =>
      case TurnSignal =>
      case VehicleSpeed =>
      case EngineRpmTemp =>
      case GearPosition =>
      case AcceleratorPosition =>
    }
  }

  /** Different signals arrive under different identifiers. */
  ghost predicate IdsDistinct(p: ObdProtocol)
  {
    forall s: Signal, t: Signal :: s != t ==> p.id(s) != p.id(t)
  }

  /** With distinct identifiers the chain recovers a signal from its identifier. */
  lemma DecodeSignalInvertsId(p: ObdProtocol, s: Signal)
    requires IdsDistinct(p)
    ensures DecodeSignal(p, p.id(s)) == Some(s)
  {
  }

  /**
   * The `process_obd_*` handler of each signal. Whichever runs, only that
   * signal loses its warning and gets a new receipt time, and only the
   * flags it owns can change.
   */
  function Handle(p: ObdProtocol, s: Signal, st: GatewayState, d: FrameData, now: u32): (r: GatewayState)
    ensures r.warnings == st.warnings - {s}
    ensures RxStamp(r, s) == now
    ensures forall t :: t != s ==> RxStamp(r, t) == RxStamp(st, t)
    ensures forall f :: Owner(f) != s ==> (f in r.flags <==> f in st.flags)
    ensures r.txStamps == st.txStamps
  {
    match s
    case SteeringWheelAngle => ProcessObdSteeringWheelAngle(p, st, d, now)
    case WheelSpeed => ProcessObdWheelSpeed(p, st, d, now)
    case BrakePressure => ProcessObdBrakePressure(p, st, d, now)
    case TurnSignal => ProcessObdTurnSignal(p, st, d, now)
    case VehicleSpeed => ProcessObdVehicleSpeed(p, st, d, now)
    case EngineRpmTemp => ProcessObdEngineRpmTemp(p, st, d, now)
    case GearPosition => ProcessObdGearPosition(p, st, d, now)
    case AcceleratorPosition => ProcessObdAcceleratorPedalPosition(p, st, d, now)
  }

  /**
   * `process_rx_frame` (with `check_for_incoming_message`'s "no frame"
   * as `None`): hand a recognised frame to its signal's handler; anything
   * else changes nothing.
   */
  function ProcessRxFrame(p: ObdProtocol, st: GatewayState, frame: Option<CanFrame>, now: u32): (r: GatewayState)
    ensures frame.None? ==> r == st
    ensures frame.Some? && DecodeSignal(p, frame.value.id).None? ==> r == st
    ensures frame.Some? && DecodeSignal(p, frame.value.id).Some? ==>
      r == Handle(p, DecodeSignal(p, frame.value.id).value, st, frame.value.data, now)
    ensures frame.Some? && DecodeSignal(p, frame.value.id).Some? ==>
      var s := DecodeSignal(p, frame.value.id).value;
      && r.warnings == st.warnings - {s}
      && RxStamp(r, s) == now
      && (forall t :: t != s ==> RxStamp(r, t) == RxStamp(st, t))
      && (forall f :: Owner(f) != s ==> (f in r.flags <==> f in st.flags))
      && r.txStamps == st.txStamps
  {
    match frame
    case None => st
    case Some(f) =>
      match DecodeSignal(p, f.id)
      case None => st
      case Some(s) => Handle(p, s, st, f.data, now)
  }

  /**
   * With distinct identifiers, a frame carrying a signal's identifier runs
   * exactly that signal's handler on the frame's data.
   */
  lemma DispatchByIdentifier(p: ObdProtocol, s: Signal, st: GatewayState, f: CanFrame, now: u32)
    requires IdsDistinct(p) && f.id == p.id(s)
    ensures ProcessRxFrame(p, st, Some(f), now) == Handle(p, s, st, f.data, now)
  {
    DecodeSignalInvertsId(p, s);
  }

  /** The flags each timeout branch of `check_for_obd_timeout` clears, as listed there. */
  function ClearedOnTimeout(s: Signal): (fs: set<Chassis1Flag>)
  {
    match s
    case SteeringWheelAngle => {SteerWheelAngleValid, SteerWheelAngleRateValid}
    case WheelSpeed => {WheelSpeedValid}
    case BrakePressure => {BrakePressureValid}
    case TurnSignal => {LeftTurnSignalOn, RightTurnSignalOn, BrakeSignalOn}
    case VehicleSpeed => {}
    case EngineRpmTemp => {}
    case GearPosition => {}
    case AcceleratorPosition => {}
  }

  /** A timeout clears exactly the flags its signal's frames maintain. */
  lemma ClearedOnTimeoutIsOwned(s: Signal, f: Chassis1Flag)
    ensures f in ClearedOnTimeout(s) <==> Owner(f) == s
  {
  }

  /** The order of the checks in `check_for_obd_timeout`. */
  const TimeoutOrder: seq<Signal> := [
    SteeringWheelAngle, WheelSpeed, BrakePressure, TurnSignal,
    VehicleSpeed, GearPosition, EngineRpmTemp, AcceleratorPosition ]

  /** One timed-out branch: raise the warning and clear the signal's flags. */
  function TimeoutSignal(st: GatewayState, s: Signal): GatewayState
  {
    st.(warnings := st.warnings + {s}, flags := st.flags - ClearedOnTimeout(s))
  }

  /** The branches in order, each taken when `timedOut` says so. */
  function ApplyTimeouts(st: GatewayState, order: seq<Signal>, timedOut: Signal -> bool): GatewayState
    decreases |order|
  {
    if order == [] then st
    else ApplyTimeouts(if timedOut(order[0]) then TimeoutSignal(st, order[0]) else st, order[1..], timedOut)
  }

  /**
   * The checks are independent: after them the warnings are the old ones
   * plus every timed-out signal, and a flag survives iff its owner did not
   * time out.
   */
  lemma {:induction false} ApplyTimeoutsEffect(st: GatewayState, order: seq<Signal>, timedOut: Signal -> bool)
    ensures var r := ApplyTimeouts(st, order, timedOut);
      && (forall s :: s in r.warnings <==> s in st.warnings || (s in order && timedOut(s)))
      && (forall f :: f in r.flags <==> f in st.flags && !(Owner(f) in order && timedOut(Owner(f))))
      && r.data == st.data && r.rxStamps == st.rxStamps && r.txStamps == st.txStamps
    decreases |order|
  {
    if order != [] {
      var st' := if timedOut(order[0]) then TimeoutSignal(st, order[0]) else st;
      ApplyTimeoutsEffect(st', order[1..], timedOut);
      forall f ensures f in ClearedOnTimeout(order[0]) <==> Owner(f) == order[0] {
        ClearedOnTimeoutIsOwned(order[0], f);
      }
      assert forall s :: s in order <==> s == order[0] || s in order[1..];
    }
  }

  /** Whether signal `s` has gone quiet, by the library's `is_timeout`. */
  function TimedOut(p: ObdProtocol, st: GatewayState, now: u32, isTimeout: (u32, u32, u32) -> bool, s: Signal): bool
  {
    isTimeout(RxStamp(st, s), now, p.rxTimeout(s))
  }

  /**
   * `check_for_obd_timeout`: every quiet signal raises its warning and
   * clears the chassis flags it maintains; vehicle speed, gear, engine and
   * accelerator only raise warnings. Nothing else changes.
   */
  function CheckForObdTimeout(p: ObdProtocol, st: GatewayState, now: u32, isTimeout: (u32, u32, u32) -> bool): (r: GatewayState)
    ensures forall s :: s in r.warnings <==> s in st.warnings || TimedOut(p, st, now, isTimeout, s)
    ensures forall f :: f in r.flags <==> f in st.flags && !TimedOut(p, st, now, isTimeout, Owner(f))
    ensures r.data == st.data && r.rxStamps == st.rxStamps && r.txStamps == st.txStamps
  {
    var timedOut := s => TimedOut(p, st, now, isTimeout, s);
    ApplyTimeoutsEffect(st, TimeoutOrder, timedOut);
    AllSignalsChecked();
    ApplyTimeouts(st, TimeoutOrder, timedOut)
  }

  lemma AllSignalsChecked()
    ensures forall s: Signal :: s in TimeoutOrder
  {
    forall s: Signal ensures s in TimeoutOrder {
      match s
      case SteeringWheelAngle =>
      case WheelSpeed =>
      case BrakePressure =>
      case TurnSignal =>
      case VehicleSpeed =>
      case EngineRpmTemp =>
      case GearPosition =>
      case AcceleratorPosition =>
    }
  }

  /** What `sendMsgBuf` puts on the control bus for each report. */
  datatype Payload =
    | HeartbeatPayload(hardwareVersion: u8, firmwareVersion: u8, warnings: set<Signal>)
    | Chassis1Payload(flags: set<Chassis1Flag>, steeringWheelAngle: int, steeringWheelAngleRate: int, brakePressure: int)
    | Chassis2Payload(wheelSpeeds: WheelSpeeds)
    | Chassis3Payload(vehicleSpeed: int, engineRpm: int, engineTemp: int, gearPosition: int, acceleratorPedalPosition: int)

  datatype Transmission = Transmission(id: nat, payload: Payload)

  /**
   * The identifier and payload of report `rep`; the heartbeat adds the gateway's
   * node id and carries the build's hardware and firmware versions.
   */
  function Compose(p: ObdProtocol, st: GatewayState, rep: Report): (t: Transmission)
    ensures rep == Heartbeat <==> t.payload.HeartbeatPayload?
    ensures rep == Heartbeat ==> t.id == p.reportId(Heartbeat) + p.gatewayNodeId
    ensures rep == Heartbeat ==> t.payload == HeartbeatPayload(p.hardwareVersion, p.firmwareVersion, st.warnings)
    ensures rep != Heartbeat ==> t.id == p.reportId(rep)
  {
    match rep
    case Heartbeat => Transmission(p.reportId(Heartbeat) + p.gatewayNodeId, HeartbeatPayload(p.hardwareVersion, p.firmwareVersion, st.warnings))
    case ChassisState1 =>
      Transmission(p.reportId(ChassisState1),
        Chassis1Payload(st.flags, st.data.steeringWheelAngle, st.data.steeringWheelAngleRate, st.data.brakePressure))
    case ChassisState2 => Transmission(p.reportId(ChassisState2), Chassis2Payload(st.data.wheelSpeeds))
    case ChassisState3 =>
      Transmission(p.reportId(ChassisState3),
        Chassis3Payload(st.data.vehicleSpeed, st.data.engineRpm, st.data.engineTemp,
                        st.data.gearPosition, st.data.acceleratorPedalPosition))
  }

  /** Report `rep` is due: `get_time_delta(last, now) >= interval`. */
  function Due(p: ObdProtocol, st: GatewayState, now: u32, timeDelta: (u32, u32) -> u32, rep: Report): bool
  {
    timeDelta(TxStamp(st, rep), now) >= p.interval(rep)
  }

  const PublishOrder: seq<Report> := [Heartbeat, ChassisState1, ChassisState2, ChassisState3]

  datatype PublishResult = PublishResult(state: GatewayState, sent: seq<Transmission>)

  /** Publish each report of `order` that is due, stamping it with `now`. */
  function PublishDue(p: ObdProtocol, st: GatewayState, now: u32, timeDelta: (u32, u32) -> u32, order: seq<Report>)
    : (r: PublishResult)
    decreases |order|
  {
    if order == [] then PublishResult(st, [])
    else
      var rep := order[0];
      var due := Due(p, st, now, timeDelta, rep);
      var st' := if due then st.(txStamps := st.txStamps[rep := now]) else st;
      var rest := PublishDue(p, st', now, timeDelta, order[1..]);
      PublishResult(rest.state, (if due then [Compose(p, st, rep)] else []) + rest.sent)
  }

  /** The reports of `order` that are due, in order. */
  function DueReports(p: ObdProtocol, st: GatewayState, now: u32, timeDelta: (u32, u32) -> u32, order: seq<Report>)
    : seq<Report>
    decreases |order|
  {
    if order == [] then []
    else (if Due(p, st, now, timeDelta, order[0]) then [order[0]] else []) + DueReports(p, st, now, timeDelta, order[1..])
  }

  function ComposeAll(p: ObdProtocol, st: GatewayState, reps: seq<Report>): (ts: seq<Transmission>)
    ensures |ts| == |reps|
    ensures forall i :: 0 <= i < |reps| ==> ts[i] == Compose(p, st, reps[i])
    decreases |reps|
  {
    if reps == [] then [] else [Compose(p, st, reps[0])] + ComposeAll(p, st, reps[1..])
  }

  /**
   * Publishing sends exactly the due reports, in order, with the current
   * data; it re-stamps exactly those, and touches nothing else.
   */
  lemma {:induction false} PublishDueEffect(p: ObdProtocol, st: GatewayState, now: u32, timeDelta: (u32, u32) -> u32, order: seq<Report>)
    requires forall i, j :: 0 <= i < j < |order| ==> order[i] != order[j]
    ensures var r := PublishDue(p, st, now, timeDelta, order);
      && r.sent == ComposeAll(p, st, DueReports(p, st, now, timeDelta, order))
      && (forall rep :: rep in order && Due(p, st, now, timeDelta, rep) ==> TxStamp(r.state, rep) == now)
      && (forall rep :: !(rep in order && Due(p, st, now, timeDelta, rep)) ==> TxStamp(r.state, rep) == TxStamp(st, rep))
      && r.state.warnings == st.warnings && r.state.flags == st.flags && r.state.data == st.data
      && r.state.rxStamps == st.rxStamps
    decreases |order|
  {
    if order != [] {
      var rep := order[0];
      var due := Due(p, st, now, timeDelta, rep);
      var st' := if due then st.(txStamps := st.txStamps[rep := now]) else st;
      assert forall i, j :: 0 <= i < j < |order[1..]| ==> order[1..][i] != order[1..][j] by {
        forall i, j | 0 <= i < j < |order[1..]| ensures order[1..][i] != order[1..][j] {
          assert order[1..][i] == order[i + 1] && order[1..][j] == order[j + 1];
        }
      }
      assert rep !in order[1..] by {
        forall k | 0 <= k < |order[1..]| ensures order[1..][k] != rep {
          assert order[1..][k] == order[k + 1];
        }
      }
      PublishDueEffect(p, st', now, timeDelta, order[1..]);
      forall rep' | rep' in order[1..] ensures Due(p, st', now, timeDelta, rep') == Due(p, st, now, timeDelta, rep') {
        assert TxStamp(st', rep') == TxStamp(st, rep');
      }
      DueReportsAgree(p, st, st', now, timeDelta, order[1..]);
      ComposeAllAgree(p, st, st', DueReports(p, st, now, timeDelta, order[1..]));
      assert forall x :: x in order <==> x == rep || x in order[1..];
    }
  }

  /** Due-ness of reports outside the re-stamped one does not change. */
  lemma {:induction false} DueReportsAgree(p: ObdProtocol, st: GatewayState, st': GatewayState, now: u32, timeDelta: (u32, u32) -> u32, order: seq<Report>)
    requires forall rep :: rep in order ==> TxStamp(st', rep) == TxStamp(st, rep)
    ensures DueReports(p, st', now, timeDelta, order) == DueReports(p, st, now, timeDelta, order)
    decreases |order|
  {
    if order != [] {
      assert order[0] in order;
      assert forall rep :: rep in order[1..] ==> rep in order;
      DueReportsAgree(p, st, st', now, timeDelta, order[1..]);
    }
  }

  /** Report contents depend only on warnings, flags and data. */
  lemma ComposeAllAgree(p: ObdProtocol, st: GatewayState, st': GatewayState, reps: seq<Report>)
    requires st'.warnings == st.warnings && st'.flags == st.flags && st'.data == st.data
    ensures ComposeAll(p, st', reps) == ComposeAll(p, st, reps)
  {
  }

  /** `publish_reports`: the four reports in order, each only when due. */
  function PublishReports(p: ObdProtocol, st: GatewayState, now: u32, timeDelta: (u32, u32) -> u32): (r: PublishResult)
    ensures r.sent == ComposeAll(p, st, DueReports(p, st, now, timeDelta, PublishOrder))
    ensures forall rep :: Due(p, st, now, timeDelta, rep) ==> TxStamp(r.state, rep) == now
    ensures forall rep :: !Due(p, st, now, timeDelta, rep) ==> TxStamp(r.state, rep) == TxStamp(st, rep)
    ensures r.state.warnings == st.warnings && r.state.flags == st.flags && r.state.data == st.data
  {
    PublishOrderDistinct();
    PublishDueEffect(p, st, now, timeDelta, PublishOrder);
    AllReportsPublished();
    PublishDue(p, st, now, timeDelta, PublishOrder)
  }

  /** Each report appears once in the publish order. */
  lemma PublishOrderDistinct()
    ensures forall i, j :: 0 <= i < j < |PublishOrder| ==> PublishOrder[i] != PublishOrder[j]
  {
    assert PublishOrder[0] == Heartbeat && PublishOrder[1] == ChassisState1;
    assert PublishOrder[2] == ChassisState2 && PublishOrder[3] == ChassisState3;
  }

  lemma AllReportsPublished()
    ensures forall rep: Report :: rep in PublishOrder
  {
    forall rep: Report ensures rep in PublishOrder {
      match rep
      case Heartbeat =>
      case ChassisState1 =>
      case ChassisState2 =>
      case ChassisState3 =>
    }
  }

  /**
   * With a time difference that is zero from an instant to itself and
   * positive intervals, a second call at the same instant sends nothing
   * and leaves the state as the first call left it.
   */
  lemma PublishReportsIsIdempotent(p: ObdProtocol, st: GatewayState, now: u32, timeDelta: (u32, u32) -> u32)
    requires timeDelta(now, now) == 0
    requires forall rep: Report :: p.interval(rep) > 0
    ensures var r1 := PublishReports(p, st, now, timeDelta);
      && PublishReports(p, r1.state, now, timeDelta).sent == []
      && PublishReports(p, r1.state, now, timeDelta).state == r1.state
  {
    var r1 := PublishReports(p, st, now, timeDelta);
    forall rep: Report ensures !Due(p, r1.state, now, timeDelta, rep) {
      if !Due(p, st, now, timeDelta, rep) {
        assert TxStamp(r1.state, rep) == TxStamp(st, rep);
      }
    }
    NothingDue(p, r1.state, now, timeDelta, PublishOrder);
    PublishOrderDistinct();
    PublishDueEffect(p, r1.state, now, timeDelta, PublishOrder);
    AllReportsPublished();
  }

  lemma {:induction false} NothingDue(p: ObdProtocol, st: GatewayState, now: u32, timeDelta: (u32, u32) -> u32, order: seq<Report>)
    requires forall rep: Report :: !Due(p, st, now, timeDelta, rep)
    ensures DueReports(p, st, now, timeDelta, order) == []
    decreases |order|
  {
    if order != [] {
      NothingDue(p, st, now, timeDelta, order[1..]);
    }
  }

  /**
   * The chassis-1 invariant: the brake-signal flag is never raised, and
   * at most one turn signal is on.
   */
  predicate TurnSignalsConsistent(st: GatewayState)
  {
    BrakeSignalOn !in st.flags && !(LeftTurnSignalOn in st.flags && RightTurnSignalOn in st.flags)
  }

  /** Everything that happens to the gateway, one main-loop call at a time. */
  datatype Event =
    | Receive(frame: Option<CanFrame>, now: u32)
    | TimeoutCheck(now: u32)
    | Publish(now: u32)

  function Next(p: ObdProtocol, st: GatewayState, e: Event, isTimeout: (u32, u32, u32) -> bool, timeDelta: (u32, u32) -> u32)
    : GatewayState
  {
    match e
    case Receive(f, now) => ProcessRxFrame(p, st, f, now)
    case TimeoutCheck(now) => CheckForObdTimeout(p, st, now, isTimeout)
    case Publish(now) => PublishReports(p, st, now, timeDelta).state
  }

  function Run(p: ObdProtocol, st: GatewayState, es: seq<Event>, isTimeout: (u32, u32, u32) -> bool, timeDelta: (u32, u32) -> u32)
    : GatewayState
    decreases |es|
  {
    if es == [] then st else Run(p, Next(p, st, es[0], isTimeout, timeDelta), es[1..], isTimeout, timeDelta)
  }

  lemma NextKeepsTurnSignalsConsistent(p: ObdProtocol, st: GatewayState, e: Event, isTimeout: (u32, u32, u32) -> bool, timeDelta: (u32, u32) -> u32)
    requires TurnSignalsConsistent(st)
    ensures TurnSignalsConsistent(Next(p, st, e, isTimeout, timeDelta))
  {
    match e
    case Receive(f, now) =>
      if f.Some? && DecodeSignal(p, f.value.id) == Some(TurnSignal) {
        var r := ProcessObdTurnSignal(p, st, f.value.data, now);
        assert ProcessRxFrame(p, st, f, now) == r;
      }
    case TimeoutCheck(now) =>
    case Publish(now) =>
  }

  /** No sequence of frames, timeout checks and publications breaks the chassis-1 invariant. */
  lemma {:induction false} RunKeepsTurnSignalsConsistent(p: ObdProtocol, st: GatewayState, es: seq<Event>, isTimeout: (u32, u32, u32) -> bool, timeDelta: (u32, u32) -> u32)
    requires TurnSignalsConsistent(st)
    ensures TurnSignalsConsistent(Run(p, st, es, isTimeout, timeDelta))
    decreases |es|
  {
    if es != [] {
      NextKeepsTurnSignalsConsistent(p, st, es[0], isTimeout, timeDelta);
      RunKeepsTurnSignalsConsistent(p, Next(p, st, es[0], isTimeout, timeDelta), es[1..], isTimeout, timeDelta);
    }
  }

  /**
   * A steering-angle frame after a steering-angle timeout restores what
   * the timeout took: the warning is cleared and the angle is valid again.
   */
  lemma SteeringAngleFrameRecoversFromTimeout(p: ObdProtocol, st: GatewayState, now: u32, isTimeout: (u32, u32, u32) -> bool, f: CanFrame, later: u32)
    requires IdsDistinct(p) && f.id == p.id(SteeringWheelAngle)
    requires TimedOut(p, st, now, isTimeout, SteeringWheelAngle)
    ensures var t := CheckForObdTimeout(p, st, now, isTimeout);
      && SteeringWheelAngle in t.warnings && SteerWheelAngleValid !in t.flags
      && var r := ProcessRxFrame(p, t, Some(f), later);
      SteeringWheelAngle !in r.warnings && SteerWheelAngleValid in r.flags && RxStamp(r, SteeringWheelAngle) == later
  {
    var t := CheckForObdTimeout(p, st, now, isTimeout);
    DispatchByIdentifier(p, SteeringWheelAngle, t, f, later);
  }
}
