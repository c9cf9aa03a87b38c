/**
 * Throttle start-up (`init.cpp`): the power-on control state, the relay
 * left released by device set-up, the MCP2515 acceptance filters, and the
 * EEPROM configuration load that seeds defaults on a blank or foreign
 * EEPROM, recognised by a magic word.
 */
module ThrottleInit {

  import opened Arduino
  import Dtc
  import opened Actuation
  import opened Eeprom
  import opened ThrottleControl

  /** `init_globals`: disabled, no override, no DTC latched. */
  function InitGlobals(): (r: ControlState)
    ensures !r.enabled && !r.operatorOverride
    ensures forall b: Dtc.DtcBit :: !Dtc.Check(r.dtcs, b)
    ensures OverrideExcludesEnabled(r)
  {
    Disabled
  }

  /**
   * `init_devices`: the only relay or DAC write is releasing the spoof relay
   * (the DAC chip-select deselect is a pin level, not a DAC command).
   */
  function InitDevices(): (t: seq<Effect>)
    ensures RelayLog(t) == [false]
    ensures FaultReports(t) == []
  {
    var t := [SpoofRelay(false)];
    assert t[1..] == [];
    t
  }

  /**
   * After power-on the relay agrees with the disabled control flag,
   * whatever level the pin held before `init_devices`. When it held the
   * energised level the write is a genuine release, so the trace also
   * alternates from there.
   */
  lemma PowerOnRelayTracksControl()
    ensures forall start: bool :: Last(start, RelayLog(InitDevices())) == InitGlobals().enabled
    ensures RelayTracks(true, InitDevices(), InitGlobals().enabled)
  {
  }

  /** An 11-bit standard CAN identifier. */
  type CanId = x: bv16 | x < 0x800

  /** `init_Mask(0, 0, 0x7F0)`: receive buffer 0 compares all but the low nibble. */
  const Buffer0Mask: bv16 := 0x7F0

  /** `init_Mask(1, 0, 0x7FF)`: receive buffer 1 compares the whole identifier. */
  const Buffer1Mask: bv16 := 0x7FF

  /** The identifiers the throttle's filters are programmed with. */
  datatype FilterIds = FilterIds(throttleIndex: CanId, faultIndex: CanId, throttleDisable: CanId)

  /** The MCP2515 rule: accept when `(id & mask) == (filter & mask)`. */
  predicate Matches(mask: bv16, filter: bv16, id: bv16)
  {
    id & mask == filter & mask
  }

  /** `id` lies in the 16-identifier block `0x_N0 .. 0x_NF` that contains `base`. */
  predicate InBlock(id: CanId, base: CanId)
  {
    id >> 4 == base >> 4
  }

  /** Buffer 0's mask ignores exactly the low nibble of an 11-bit identifier. */
  lemma Buffer0MatchesBlock(filter: CanId, id: CanId)
    ensures Matches(Buffer0Mask, filter, id) <==> InBlock(id, filter)
  {
  }

  /** Buffer 1's mask compares every bit of an 11-bit identifier. */
  lemma Buffer1MatchesOnly(filter: CanId, id: CanId)
    ensures Matches(Buffer1Mask, filter, id) <==> id == filter
  {
  }

  /**
   * `init_communication_interfaces`: filters 0 and 1 on buffer 0 pass the
   * throttle and the fault blocks, filter 2 on buffer 1 passes exactly the
   * throttle disable identifier. Filters 3 to 5 of buffer 1 are not
   * programmed here; they are taken to accept nothing beyond filter 2.
   */
  function Accepts(ids: FilterIds, id: CanId): (r: bool)
    ensures r <==> InBlock(id, ids.throttleIndex) || InBlock(id, ids.faultIndex) || id == ids.throttleDisable
  {
    Buffer0MatchesBlock(ids.throttleIndex, id);
    Buffer0MatchesBlock(ids.faultIndex, id);
    Buffer1MatchesOnly(ids.throttleDisable, id);
    Matches(Buffer0Mask, ids.throttleIndex, id)
    || Matches(Buffer0Mask, ids.faultIndex, id)
    || Matches(Buffer1Mask, ids.throttleDisable, id)
  }

  /** The configuration cells of `init_config`, addressed by `OSCC_CONFIG_U16_*` identifiers. */
  datatype ConfigId =
    | SpoofLowSignalRangeMin
    | SpoofLowSignalRangeMax
    | SpoofHighSignalRangeMin
    | SpoofHighSignalRangeMax
    | PedalOverrideThreshold
    | FaultCheckFrequencyInHz
    | ReportPublishFrequencyInHz
    | EepromMagic

  /** The field of `g_eeprom_config` a configuration cell loads. */
  function Field(cfg: EepromConfig, id: ConfigId): u16
    requires id != EepromMagic
  {
    match id
    case SpoofLowSignalRangeMin => cfg.spoofLowSignalRangeMin
    case SpoofLowSignalRangeMax => cfg.spoofLowSignalRangeMax
    case SpoofHighSignalRangeMin => cfg.spoofHighSignalRangeMin
    case SpoofHighSignalRangeMax => cfg.spoofHighSignalRangeMax
    case PedalOverrideThreshold => cfg.pedalOverrideThreshold
    case FaultCheckFrequencyInHz => cfg.faultCheckFrequencyInHz
    case ReportPublishFrequencyInHz => cfg.reportPublishFrequencyInHz
  }

  /** The seven default writes, in the order of `init.cpp`. */
  function DefaultWrites(defaults: EepromConfig): (ws: seq<Entry<ConfigId>>)
    ensures |ws| == 7
    ensures forall i :: 0 <= i < 7 ==> ws[i].key != EepromMagic && ws[i].value == Field(defaults, ws[i].key)
    ensures forall k: ConfigId :: k != EepromMagic ==> Entry(k, Field(defaults, k)) in ws
  {
    [ Entry(SpoofLowSignalRangeMin, defaults.spoofLowSignalRangeMin),
      Entry(SpoofLowSignalRangeMax, defaults.spoofLowSignalRangeMax),
      Entry(SpoofHighSignalRangeMin, defaults.spoofHighSignalRangeMin),
      Entry(SpoofHighSignalRangeMax, defaults.spoofHighSignalRangeMax),
      Entry(PedalOverrideThreshold, defaults.pedalOverrideThreshold),
      Entry(FaultCheckFrequencyInHz, defaults.faultCheckFrequencyInHz),
      Entry(ReportPublishFrequencyInHz, defaults.reportPublishFrequencyInHz) ]
  }

  /** The seven reads that fill `g_eeprom_config`. */
  function LoadConfig(st: Store<ConfigId>): (cfg: EepromConfig)
    ensures forall k: ConfigId :: k != EepromMagic ==> Field(cfg, k) == Read(st, k)
  {
    EepromConfig(
      Read(st, SpoofLowSignalRangeMin), Read(st, SpoofLowSignalRangeMax),
      Read(st, SpoofHighSignalRangeMin), Read(st, SpoofHighSignalRangeMax),
      Read(st, PedalOverrideThreshold), Read(st, FaultCheckFrequencyInHz),
      Read(st, ReportPublishFrequencyInHz))
  }

  datatype InitResult = InitResult(store: Store<ConfigId>, writes: seq<Entry<ConfigId>>, config: EepromConfig)

  /**
   * `init_config`: when the magic cell does not hold the magic word, write
   * the seven defaults and then the magic word (last, so an interrupted
   * seeding is redone on the next boot); then load the seven cells.
   */
  function InitConfig(st: Store<ConfigId>, defaults: EepromConfig, magic: u16): (r: InitResult)
    ensures Read(st, EepromMagic) == magic ==> r.writes == [] && r.store == st
    ensures Read(st, EepromMagic) != magic ==>
      && r.writes == DefaultWrites(defaults) + [Entry(EepromMagic, magic)]
      && r.store == WriteAll(st, r.writes)
    ensures forall k: ConfigId :: k != EepromMagic ==> Field(r.config, k) == Read(r.store, k)
  {
    var writes := if Read(st, EepromMagic) != magic then DefaultWrites(defaults) + [Entry(EepromMagic, magic)] else [];
    var st' := WriteAll(st, writes);
    InitResult(st', writes, LoadConfig(st'))
  }

  /**
   * After `init_config` the magic cell holds the magic word; on a first
   * boot the loaded configuration is exactly the defaults, and on a later
   * boot it is exactly what the EEPROM held.
   */
  lemma InitConfigSeedsDefaults(st: Store<ConfigId>, defaults: EepromConfig, magic: u16)
    ensures Read(InitConfig(st, defaults, magic).store, EepromMagic) == magic
    ensures Read(st, EepromMagic) != magic ==> InitConfig(st, defaults, magic).config == defaults
    ensures Read(st, EepromMagic) == magic ==> InitConfig(st, defaults, magic).config == LoadConfig(st)
  {
    var r := InitConfig(st, defaults, magic);
    if Read(st, EepromMagic) != magic {
      var ws := r.writes;
      ReadAfterWriteAll(st, ws, EepromMagic);
      assert ws[7] == Entry(EepromMagic, magic);
      forall k: ConfigId | k != EepromMagic
        ensures Field(r.config, k) == Field(defaults, k)
      {
        ReadAfterWriteAll(st, ws, k);
        var i :| 0 <= i < 7 && DefaultWrites(defaults)[i] == Entry(k, Field(defaults, k));
        assert ws[i] == Entry(k, Field(defaults, k));
        var v := LastWrite(ws, k);
        var j :| 0 <= j < |ws| && ws[j] == Entry(k, v.value);
        assert j < 7;
      }
      assert Field(r.config, SpoofLowSignalRangeMin) == Field(defaults, SpoofLowSignalRangeMin);
      assert Field(r.config, SpoofLowSignalRangeMax) == Field(defaults, SpoofLowSignalRangeMax);
      assert Field(r.config, SpoofHighSignalRangeMin) == Field(defaults, SpoofHighSignalRangeMin);
      assert Field(r.config, SpoofHighSignalRangeMax) == Field(defaults, SpoofHighSignalRangeMax);
      assert Field(r.config, PedalOverrideThreshold) == Field(defaults, PedalOverrideThreshold);
      assert Field(r.config, FaultCheckFrequencyInHz) == Field(defaults, FaultCheckFrequencyInHz);
      assert Field(r.config, ReportPublishFrequencyInHz) == Field(defaults, ReportPublishFrequencyInHz);
    }
  }

  /** A second boot writes nothing and loads the same configuration. */
  lemma InitConfigIsIdempotent(st: Store<ConfigId>, defaults: EepromConfig, magic: u16)
    ensures var r1 := InitConfig(st, defaults, magic);
      var r2 := InitConfig(r1.store, defaults, magic);
      r2.writes == [] && r2.store == r1.store && r2.config == r1.config
  {
    InitConfigSeedsDefaults(st, defaults, magic);
  }

  /**
   * A configuration value written into an already seeded EEPROM (as the
   * configuration frames of the communications layer do) is the value the
   * next boot loads: seeding does not overwrite it.
   */
  lemma ConfigWriteSurvivesRestart(st: Store<ConfigId>, defaults: EepromConfig, magic: u16, k: ConfigId, v: u16)
    requires Read(st, EepromMagic) == magic && k != EepromMagic
    ensures Field(InitConfig(Write(st, Entry(k, v)), defaults, magic).config, k) == v
  {
  }
}
