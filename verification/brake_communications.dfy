/**
 * The brake module's CAN layer (Kia Soul EV build, `communications.cpp`):
 * the periodic brake report and the fault report it publishes, and the
 * dispatch of received frames to enable, disable, command, fault and
 * configuration handling, the last of which updates both the in-RAM
 * configuration and the EEPROM cell of the same name.
 *
 * Identifiers, magic bytes, configuration codes and the byte layout of
 * the payload structures come from protocol headers that are not part
 * of this model; they are the fields of `Protocol`. The control
 * functions the layer calls are named by the `ControlCall` it returns.
 */
module BrakeCommunications {

  import opened Arduino
  import opened Wrappers
  import opened Can
  import opened Eeprom
  import Actuation

  /** The configuration names `process_config_u16` recognises, in its test order. */
  datatype ConfigName =
    | SpoofLowSignalRangeMin
    | SpoofLowSignalRangeMax
    | SpoofHighSignalRangeMin
    | SpoofHighSignalRangeMax
    | PedalOverrideThreshold
    | LightSpoofLowThreshold
    | LightSpoofHighThreshold
    | FaultCheckFrequencyInHz
    | ReportPublishFrequencyInHz

  /** The protocol constants and payload accessors of the brake CAN protocol. */
  datatype Protocol = Protocol(
    magic0: u8,                       // OSCC_MAGIC_BYTE_0
    magic1: u8,                       // OSCC_MAGIC_BYTE_1
    enableId: nat,                    // OSCC_BRAKE_ENABLE_CAN_ID
    disableId: nat,                   // OSCC_BRAKE_DISABLE_CAN_ID
    commandId: nat,                   // OSCC_BRAKE_COMMAND_CAN_ID
    faultReportId: nat,               // OSCC_FAULT_REPORT_CAN_ID
    configId: nat,                    // OSCC_CONFIG_U16_CAN_ID
    reportId: nat,                    // OSCC_BRAKE_REPORT_CAN_ID
    faultOriginBrake: u8,             // FAULT_ORIGIN_BRAKE
    code: ConfigName -> u16,          // OSCC_CONFIG_U16_BRAKE_EV_*
    commandHigh: FrameData -> u16,    // oscc_brake_command_s.spoof_value_high
    commandLow: FrameData -> u16,     // oscc_brake_command_s.spoof_value_low
    configName: FrameData -> u16,     // oscc_config_u16_s.name
    configValue: FrameData -> u16)    // oscc_config_u16_s.value

  /** The five received identifiers are pairwise different. */
  predicate IdsDistinct(p: Protocol)
  {
    var ids := [p.enableId, p.disableId, p.commandId, p.faultReportId, p.configId];
    forall i, j :: 0 <= i < j < |ids| ==> ids[i] != ids[j]
  }

  /** Different configuration names have different codes. */
  ghost predicate CodesDistinct(p: Protocol)
  {
    forall j: ConfigName, k: ConfigName :: j != k ==> p.code(j) != p.code(k)
  }

  /** The brake `g_eeprom_config`. */
  datatype BrakeConfig = BrakeConfig(
    spoofLowSignalRangeMin: u16,
    spoofLowSignalRangeMax: u16,
    spoofHighSignalRangeMin: u16,
    spoofHighSignalRangeMax: u16,
    pedalOverrideThreshold: u16,
    brakeLightSpoofLowThreshold: u16,
    brakeLightSpoofHighThreshold: u16,
    faultCheckFrequencyInHz: u16,
    reportPublishFrequencyInHz: u16)

  function Field(c: BrakeConfig, k: ConfigName): u16
  {
    match k
    case SpoofLowSignalRangeMin => c.spoofLowSignalRangeMin
    case SpoofLowSignalRangeMax => c.spoofLowSignalRangeMax
    case SpoofHighSignalRangeMin => c.spoofHighSignalRangeMin
    case SpoofHighSignalRangeMax => c.spoofHighSignalRangeMax
    case PedalOverrideThreshold => c.pedalOverrideThreshold
    case LightSpoofLowThreshold => c.brakeLightSpoofLowThreshold
    case LightSpoofHighThreshold => c.brakeLightSpoofHighThreshold
    case FaultCheckFrequencyInHz => c.faultCheckFrequencyInHz
    case ReportPublishFrequencyInHz => c.reportPublishFrequencyInHz
  }

  /** Assign one configuration field: it reads back, every other field is untouched. */
  function WithField(c: BrakeConfig, k: ConfigName, v: u16): (r: BrakeConfig)
    ensures Field(r, k) == v
    ensures forall j: ConfigName :: j != k ==> Field(r, j) == Field(c, j)
  {
    match k
    case SpoofLowSignalRangeMin => c.(spoofLowSignalRangeMin := v)
    case SpoofLowSignalRangeMax => c.(spoofLowSignalRangeMax := v)
    case SpoofHighSignalRangeMin => c.(spoofHighSignalRangeMin := v)
    case SpoofHighSignalRangeMax => c.(spoofHighSignalRangeMax := v)
    case PedalOverrideThreshold => c.(pedalOverrideThreshold := v)
    case LightSpoofLowThreshold => c.(brakeLightSpoofLowThreshold := v)
    case LightSpoofHighThreshold => c.(brakeLightSpoofHighThreshold := v)
    case FaultCheckFrequencyInHz => c.(faultCheckFrequencyInHz := v)
    case ReportPublishFrequencyInHz => c.(reportPublishFrequencyInHz := v)
  }

  /** The configuration in RAM and the EEPROM cells, keyed by configuration code. */
  datatype CommsState = CommsState(config: BrakeConfig, store: Store<u16>)

  /** RAM mirrors EEPROM: every field equals the cell of its code. */
  ghost predicate InSync(p: Protocol, st: CommsState)
  {
    forall k: ConfigName :: Field(st.config, k) == Read(st.store, p.code(k))
  }

  /**
   * The `if / else if` chain of `process_config_u16`: the first name whose
   * code equals the received one, or none.
   */
  function DecodeConfigName(p: Protocol, n: u16): (r: Option<ConfigName>)
    ensures r.Some? ==> p.code(r.value) == n
    ensures r.None? <==> forall k: ConfigName :: p.code(k) != n
  {
    if n == p.code(SpoofLowSignalRangeMin) then Some(SpoofLowSignalRangeMin)
    else if n == p.code(SpoofLowSignalRangeMax) then Some(SpoofLowSignalRangeMax)
    else if n == p.code(SpoofHighSignalRangeMin) then Some(SpoofHighSignalRangeMin)
    else if n == p.code(SpoofHighSignalRangeMax) then Some(SpoofHighSignalRangeMax)
    else if n == p.code(PedalOverrideThreshold) then Some(PedalOverrideThreshold)
    else if n == p.code(LightSpoofLowThreshold) then Some(LightSpoofLowThreshold)
    else if n == p.code(LightSpoofHighThreshold) then Some(LightSpoofHighThreshold)
    else if n == p.code(FaultCheckFrequencyInHz) then Some(FaultCheckFrequencyInHz)
    else if n == p.code(ReportPublishFrequencyInHz) then Some(ReportPublishFrequencyInHz)
    else
      NoNameHasCode(p, n);
      None
  }

  /** A code that differs from each of the nine codes belongs to no name. */
  lemma NoNameHasCode(p: Protocol, n: u16)
    requires n != p.code(SpoofLowSignalRangeMin) && n != p.code(SpoofLowSignalRangeMax)
    requires n != p.code(SpoofHighSignalRangeMin) && n != p.code(SpoofHighSignalRangeMax)
    requires n != p.code(PedalOverrideThreshold)
    requires n != p.code(LightSpoofLowThreshold) && n != p.code(LightSpoofHighThreshold)
    requires n != p.code(FaultCheckFrequencyInHz) && n != p.code(ReportPublishFrequencyInHz)
    ensures forall k: ConfigName :: p.code(k) != n
  {
    forall k: ConfigName ensures p.code(k) != n {
      match k
      case SpoofLowSignalRangeMin =>
      case SpoofLowSignalRangeMax =>
      case SpoofHighSignalRangeMin =>
      case SpoofHighSignalRangeMax =>
      case PedalOverrideThreshold =>
      case LightSpoofLowThreshold =>
      case LightSpoofHighThreshold =>
      case FaultCheckFrequencyInHz =>
      case ReportPublishFrequencyInHz =>
    }
  }

  /** With distinct codes the chain recovers the name from its code. */
  lemma DecodeConfigNameInvertsCode(p: Protocol, k: ConfigName)
    requires CodesDistinct(p)
    ensures DecodeConfigName(p, p.code(k)) == Some(k)
  {
  }

  /**
   * `process_config_u16`: a recognised name sets the matching field and
   * writes the same value to the EEPROM cell of that name; an unknown name
   * changes nothing.
   */
  function ProcessConfigU16(p: Protocol, st: CommsState, data: FrameData): (r: CommsState)
    ensures DecodeConfigName(p, p.configName(data)).None? ==> r == st
    ensures DecodeConfigName(p, p.configName(data)).Some? ==>
      var k := DecodeConfigName(p, p.configName(data)).value;
      && Field(r.config, k) == p.configValue(data)
      && (forall j: ConfigName :: j != k ==> Field(r.config, j) == Field(st.config, j))
      && Read(r.store, p.code(k)) == p.configValue(data)
      && (forall n: u16 :: n != p.code(k) ==> Read(r.store, n) == Read(st.store, n))
  {
    match DecodeConfigName(p, p.configName(data))
    case None => st
    case Some(k) =>
      var v := p.configValue(data);
      CommsState(WithField(st.config, k, v), Write(st.store, Entry(p.configName(data), v)))
  }

  /** A configuration frame keeps RAM and EEPROM in agreement. */
  lemma ProcessConfigU16KeepsSync(p: Protocol, st: CommsState, data: FrameData)
    requires CodesDistinct(p) && InSync(p, st)
    ensures InSync(p, ProcessConfigU16(p, st, data))
  {
    var r := ProcessConfigU16(p, st, data);
    match DecodeConfigName(p, p.configName(data))
    case None =>
    case Some(k) =>
      forall j: ConfigName ensures Field(r.config, j) == Read(r.store, p.code(j)) {
        if j != k {
          assert p.code(j) != p.code(k);
        }
      }
  }

  /** The control function a received frame invokes. */
  datatype ControlCall =
    | NoCall
    | CallEnable                             // enable_control()
    | CallDisable                            // disable_control()
    | CallUpdateBrake(high: u16, low: u16)   // update_brake(spoof_value_high, spoof_value_low)

  datatype RxOutcome = RxOutcome(call: ControlCall, comms: CommsState)

  predicate HasMagic(p: Protocol, f: CanFrame)
  {
    f.data[0] == p.magic0 && f.data[1] == p.magic1
  }

  /**
   * `process_rx_frame` (and `check_for_incoming_message`, whose "no frame
   * available" is `None` here): a frame without both magic bytes is
   * ignored; otherwise the identifier, tested in order, selects enable,
   * disable, command, fault report (which disables) or configuration;
   * any other identifier is ignored.
   */
  function ProcessRxFrame(p: Protocol, st: CommsState, frame: Option<CanFrame>): (r: RxOutcome)
    ensures frame.None? ==> r == RxOutcome(NoCall, st)
    ensures frame.Some? && !HasMagic(p, frame.value) ==> r == RxOutcome(NoCall, st)
    ensures r.call.CallEnable? ==> frame.Some? && HasMagic(p, frame.value) && frame.value.id == p.enableId
    ensures r.call.CallDisable? ==>
      frame.Some? && HasMagic(p, frame.value) && (frame.value.id == p.disableId || frame.value.id == p.faultReportId)
    ensures r.call.CallUpdateBrake? ==>
      && frame.Some? && HasMagic(p, frame.value) && frame.value.id == p.commandId
      && r.call == CallUpdateBrake(p.commandHigh(frame.value.data), p.commandLow(frame.value.data))
    ensures r.comms != st ==> frame.Some? && HasMagic(p, frame.value) && frame.value.id == p.configId
    ensures r.call.NoCall? && frame.Some? && HasMagic(p, frame.value) ==>
      frame.value.id !in {p.enableId, p.disableId, p.commandId, p.faultReportId}
  {
    match frame
    case None => RxOutcome(NoCall, st)
    case Some(f) =>
      if !HasMagic(p, f) then RxOutcome(NoCall, st)
      else if f.id == p.enableId then RxOutcome(CallEnable, st)
      else if f.id == p.disableId then RxOutcome(CallDisable, st)
      else if f.id == p.commandId then RxOutcome(CallUpdateBrake(p.commandHigh(f.data), p.commandLow(f.data)), st)
      else if f.id == p.faultReportId then RxOutcome(CallDisable, st)
      else if f.id == p.configId then RxOutcome(NoCall, ProcessConfigU16(p, st, f.data))
      else RxOutcome(NoCall, st)
  }

  /**
   * With distinct identifiers each magic-bearing frame reaches exactly its
   * own handler.
   */
  lemma DispatchByIdentifier(p: Protocol, st: CommsState, f: CanFrame)
    requires IdsDistinct(p) && HasMagic(p, f)
    ensures f.id == p.enableId ==> ProcessRxFrame(p, st, Some(f)) == RxOutcome(CallEnable, st)
    ensures f.id == p.disableId || f.id == p.faultReportId ==> ProcessRxFrame(p, st, Some(f)) == RxOutcome(CallDisable, st)
    ensures f.id == p.commandId ==>
      ProcessRxFrame(p, st, Some(f)) == RxOutcome(CallUpdateBrake(p.commandHigh(f.data), p.commandLow(f.data)), st)
    ensures f.id == p.configId ==> ProcessRxFrame(p, st, Some(f)) == RxOutcome(NoCall, ProcessConfigU16(p, st, f.data))
  {
    var ids := [p.enableId, p.disableId, p.commandId, p.faultReportId, p.configId];
    assert ids[0] != ids[1] && ids[0] != ids[2] && ids[0] != ids[3] && ids[0] != ids[4];
    assert ids[1] != ids[2] && ids[1] != ids[3] && ids[1] != ids[4];
    assert ids[2] != ids[3] && ids[2] != ids[4] && ids[3] != ids[4];
  }

  /** No received frame can desynchronise RAM from EEPROM. */
  lemma ProcessRxFrameKeepsSync(p: Protocol, st: CommsState, frame: Option<CanFrame>)
    requires CodesDistinct(p) && InSync(p, st)
    ensures InSync(p, ProcessRxFrame(p, st, frame).comms)
  {
    if frame.Some? && HasMagic(p, frame.value) && ProcessRxFrame(p, st, frame).comms != st {
      ProcessConfigU16KeepsSync(p, st, frame.value.data);
    }
  }

  /** `oscc_brake_report_s` as published. */
  datatype BrakeReport = BrakeReport(magic0: u8, magic1: u8, enabled: u8, operatorOverride: u8, dtcs: bv8)

  /** `oscc_fault_report_s` as published. */
  datatype FaultReportFrame = FaultReportFrame(magic0: u8, magic1: u8, faultOriginId: u8, dtcs: bv8)

  /** A frame handed to `sendMsgBuf`: identifier and payload. */
  datatype Sent<T> = Sent(id: nat, payload: T)

  /** `(uint8_t) bool`. */
  function BoolByte(b: bool): (r: u8)
    ensures r == 0 <==> !b
    ensures r <= 1
  {
    if b then 1 else 0
  }

  /** `publish_brake_report`: the control state, flag by flag, behind the magic bytes. */
  function PublishBrakeReport(p: Protocol, c: Actuation.ControlState): (m: Sent<BrakeReport>)
    ensures m.id == p.reportId
    ensures m.payload.magic0 == p.magic0 && m.payload.magic1 == p.magic1
    ensures m.payload.enabled <= 1 && m.payload.operatorOverride <= 1
  {
    Sent(p.reportId, BrakeReport(p.magic0, p.magic1, BoolByte(c.enabled), BoolByte(c.operatorOverride), c.dtcs))
  }

  /** How a receiver reads a brake report back into a control state. */
  function ReportedControl(r: BrakeReport): Actuation.ControlState
  {
    Actuation.ControlState(r.enabled != 0, r.operatorOverride != 0, r.dtcs)
  }

  /** The brake report loses nothing: it decodes to the state it was built from. */
  lemma BrakeReportRoundTrip(p: Protocol, c: Actuation.ControlState)
    ensures ReportedControl(PublishBrakeReport(p, c).payload) == c
  {
  }

  /** `publish_fault_report`: the brake origin and the current DTC field. */
  function PublishFaultReport(p: Protocol, c: Actuation.ControlState): (m: Sent<FaultReportFrame>)
    ensures m.id == p.faultReportId
    ensures m.payload.magic0 == p.magic0 && m.payload.magic1 == p.magic1
    ensures m.payload.faultOriginId == p.faultOriginBrake
    ensures m.payload.dtcs == c.dtcs
  {
    Sent(p.faultReportId, FaultReportFrame(p.magic0, p.magic1, p.faultOriginBrake, c.dtcs))
  }

  /**
   * A fault report this module publishes carries the magic bytes and the
   * fault-report identifier, so another module on the bus that receives it
   * disables itself.
   */
  lemma PublishedFaultDisablesReceiver(p: Protocol, st: CommsState, c: Actuation.ControlState)
    requires IdsDistinct(p)
    ensures var m := PublishFaultReport(p, c);
      var f := CanFrame(m.id, [m.payload.magic0, m.payload.magic1, m.payload.faultOriginId, 0, 0, 0, 0, 0]);
      ProcessRxFrame(p, st, Some(f)).call == CallDisable
  {
    var m := PublishFaultReport(p, c);
    var f := CanFrame(m.id, [m.payload.magic0, m.payload.magic1, m.payload.faultOriginId, 0, 0, 0, 0, 0]);
    DispatchByIdentifier(p, st, f);
  }
}
