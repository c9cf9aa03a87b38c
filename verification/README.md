# OSCC drive-by-wire control core, modelled in Dafny

This project models the control core of the Open Source Car Control (OSCC)
firmware. Each OSCC actuator module (brake, throttle, steering) sits between
the vehicle's pedal or torque sensors and the vehicle's ECU. When control is
enabled, the module closes a spoof relay and drives a DAC with commanded
values. When control is disabled, it releases the relay so the vehicle's own
sensor signal goes through. When the human operator overrides or a sensor
reads invalid, the module disables itself, latches a DTC (diagnostic trouble
code) bit and publishes a fault report on the control CAN bus. The CAN
gateway relays the car's OBD frames as OSCC chassis-state reports.

The model is a functional state machine. Every firmware routine is a pure
function from a module state to a `Step(state, effects)`. The effects are the
actuator-visible writes in order:

- the 20 sensor samples taken before any relay switch;
- relay writes;
- DAC outputs;
- the brake light;
- published fault reports.

Modules:

- `Arduino`: fixed-width integers, the `constrain` macro, and unsigned 32-bit `millis()` differences.
- `Dtc`: the 8-bit DTC bitfield and its set, clear and check macros.
- `Actuation`: the control state shared by all actuators, the effect traces, the enable/disable relay sequence, and the four-bound range check.
- `BrakeControl`, `ThrottleControl`, `SteeringControl`: the three actuator modules.
- `ThrottleInit`, `Eeprom`: throttle start-up, CAN acceptance filters, and EEPROM configuration seeding.
- `SteeringTimers`: the steering module's 5 Hz fault-check tick.
- `BrakeCommunications`, `Can`: brake CAN frame dispatch, configuration frames, and report publishing.
- `GatewayCommunications`: OBD frame processing, OBD timeouts, and periodic report publishing in the gateway.
- `Wrappers`: `Option`.

These safety properties are proved for each actuator over every run of events:

- `enabled && operator_override` never holds.
- Every relay switch comes right after the discontinuity sampling.
- The relay writes alternate.
- The relay ends in the position given by the `enabled` flag.

## Model

| member | source | states |
|---|---|---|
| Arduino.Constrain | firmware/brake/kia_soul_ev_niro/src/brake_control.cpp:139-149 | The result is the input or one of the bounds. With an ordered range it lies in the range, equals the input exactly when the input is in range, and is the nearest in-range value. With an inverted range it is the bound the macro's first comparison picks. |
| Arduino.Clamp | firmware/brake/kia_soul_ev_niro/src/brake_control.cpp:139-149 | A 16-bit command constrained to a valid calibrated range lies in the range. It is unchanged exactly when already in range. Below the range it maps to min and above it to max. |
| Arduino.Elapsed | firmware/brake/kia_soul_ev_niro/src/brake_control.cpp:57 | The unsigned `millis() - TIME_LAST_SEEN` is the forward distance modulo 2^32. It equals plain subtraction when no wrap-around occurred. |
| Arduino.AddU16 | firmware/brake/kia_soul_ev_niro/src/brake_control.cpp:46-47 | The sum of two `uint16_t` channels in 16-bit AVR arithmetic is the true sum, or the true sum less 2^16. Below 2^16 it is the true sum. |
| Dtc.Set | firmware/throttle/src/throttle_control.cpp:50-52 | `DTC_SET` latches the named bit and leaves every other bit as it was. |
| Dtc.Clear | firmware/throttle/src/throttle_control.cpp:62-64 | `DTC_CLEAR` releases the named bit and leaves every other bit as it was. |
| Dtc.BitsDetermineField | firmware/throttle/include/throttle_control.h:35-43 | Two `dtcs` bytes that agree on all eight bits are equal, so the field is exactly eight independent flags. |
| Dtc.SetThenClear | firmware/throttle/src/throttle_control.cpp:46-66 | Latching a clear DTC bit and then releasing it restores the field. |
| Actuation.SwitchSpoof | firmware/brake/kia_soul_ev_niro/src/brake_control.cpp:180-190 | An enable or disable transition first samples the sensors and then switches the relay once, to the new position. It publishes no fault report. |
| Actuation.RangeErrorCount | firmware/brake/kia_soul_ev_niro/src/brake_control.cpp:232-244 | The error count is at most 4. It is 0 exactly when both channels lie within their ranges shifted right by 2. It is at most 2 when both ranges are ordered. |
| Actuation.RelayTracksAppend | firmware/brake/kia_soul_ev_niro/src/brake_control.cpp:176-220 | Two effect traces that each keep the relay in step with the enabled flag still do so when concatenated. |
| Actuation.AppendFaultReport | firmware/brake/kia_soul_ev_niro/src/brake_control.cpp:59-70 | Appending a fault report after a disable keeps the trace guarded and its relay log unchanged. It adds exactly that DTC byte to the reports. |
| BrakeControl.EnableControl | firmware/brake/kia_soul_ev_niro/src/brake_control.cpp:176-197 | Control ends enabled exactly when it was enabled or not overridden. A real transition clears the command-timeout flag and runs the closing relay sequence. Otherwise nothing changes. |
| BrakeControl.DisableControl | firmware/brake/kia_soul_ev_niro/src/brake_control.cpp:200-220 | Control ends disabled. From enabled it clears the timeout flag and runs the opening relay sequence. From disabled nothing changes. The override flag, the DTCs and the statics are kept. |
| BrakeControl.CheckForOperatorOverride | firmware/brake/kia_soul_ev_niro/src/brake_control.cpp:37-86 | This is the debounced override. The channel sum wraps at 16 bits, as the AVR `uint16_t` addition does. It is inactive unless enabled or overridden. A release clears the override, its DTC and the hold timer. A first press starts the timer. A press within 100 ms changes nothing. A later press disables, latches the override DTC and appends one fault report carrying it. The invariant is kept. |
| BrakeControl.CheckBrakePedalPositionData | firmware/brake/kia_soul_ev_niro/src/brake_control.cpp:232-250 | As written, `return 0` comes before `return(error_count)`, so every reading is valid. |
| BrakeControl.SensorFaultStep | firmware/brake/kia_soul_ev_niro/src/brake_control.cpp:100-127 | A valid reading resets the counter and releases the sensor DTC. An invalid reading adds one to the counter. Below 4 nothing else changes. From the 4th on, the module disables, latches the DTC and publishes one fault report. |
| BrakeControl.CheckForSensorFaults | firmware/brake/kia_soul_ev_niro/src/brake_control.cpp:89-129 | The check runs only while enabled or latched. As written it only clears the DTC and the counter. It never disables and never reports. |
| BrakeControl.UpdateBrake | firmware/brake/kia_soul_ev_niro/src/brake_control.cpp:132-173 | While enabled it emits the brake light and then the DAC write. The light is on exactly when a clamped value strictly exceeds its threshold. Both outputs are clamped into their ranges. While disabled it emits nothing. |
| BrakeControl.NextIsSafe | firmware/brake/kia_soul_ev_niro/src/brake_control.cpp:37-220 | Every brake routine keeps `enabled && override` false. Its relay writes are guarded and track the enabled flag. |
| BrakeControl.RunIsSafe | firmware/brake/kia_soul_ev_niro/src/brake_control.cpp:37-220 | Over any event sequence from a safe state, the invariant holds at the end. All relay switches are guarded, alternate, and end at the final enabled flag. |
| BrakeControl.SensorFaultNeverLatches | firmware/brake/kia_soul_ev_niro/src/brake_control.cpp:246 | With the early `return 0`, the invalid-sensor DTC is never latched and the counter stays 0 on every run. |
| BrakeControl.PressedOnAdcReadings | firmware/brake/kia_soul_ev_niro/src/brake_control.cpp:46-49 | For readings within the 10-bit ADC range the wrapped 16-bit sum equals the true sum. The override test is then the plain average against the threshold. |
| BrakeControl.PressWithinHoldIsIgnored | firmware/brake/kia_soul_ev_niro/src/brake_control.cpp:49-57 | Pressed samples within 100 ms of the first one leave state and effects untouched. |
| BrakeControl.HeldPressCommitsOverride | firmware/brake/kia_soul_ev_niro/src/brake_control.cpp:49-73 | Two pressed samples more than 100 ms apart disable the module, set the override and its DTC, and publish exactly one fault report. |
| BrakeControl.StaleHoldTimerCommitsAtOnce | firmware/brake/kia_soul_ev_niro/src/brake_control.cpp:53-57 | The hold timer is not reset on enable. A timer left over from an earlier press makes the first press after re-enabling commit at once. |
| BrakeControl.OverrideRepublishesWhileHeld | firmware/brake/kia_soul_ev_niro/src/brake_control.cpp:57-70 | After a commit, each further held sample past the hold time publishes one more fault report and changes nothing else. |
| BrakeControl.DisableIsIdempotent | firmware/brake/kia_soul_ev_niro/src/brake_control.cpp:200-202 | A second disable changes nothing and emits nothing. |
| ThrottleControl.EnableControl | firmware/throttle/src/throttle_control.cpp:141-161 | This is enable without the timeout flag. The module ends enabled exactly when it was enabled or not overridden. A transition runs the closing relay sequence. |
| ThrottleControl.DisableControl | firmware/throttle/src/throttle_control.cpp:164-183 | The module ends disabled. From enabled it runs the opening relay sequence. From disabled nothing changes. |
| ThrottleControl.CheckForOperatorOverride | firmware/throttle/src/throttle_control.cpp:34-69 | The override is immediate. The channel sum wraps at 16 bits, as on the AVR target. An average at or above the EEPROM threshold disables, sets the override and its DTC, and publishes one fault report. Otherwise the override and its DTC are cleared. |
| ThrottleControl.PressedOnAdcReadings | firmware/throttle/src/throttle_control.cpp:43-46 | For readings within the 10-bit ADC range the wrapped 16-bit sum equals the true sum. The override test is then the plain average against the EEPROM threshold. |
| ThrottleControl.CheckForSensorFaults | firmware/throttle/src/throttle_control.cpp:72-111 | A reading with a zero channel counts as invalid. The fourth consecutive invalid reading and every later one disable, latch the DTC and report. A valid reading clears both. |
| ThrottleControl.UpdateThrottle | firmware/throttle/src/throttle_control.cpp:114-138 | While enabled it emits one DAC write: high clamped into the high range and low into the low range, each inside its range when ordered. While disabled it emits nothing. |
| ThrottleControl.CheckAcceleratorPositionData | firmware/throttle/include/throttle_control.h:115-129 | This is the documented error count. It is at most 4, and 0 exactly when both channels lie within their ranges shifted right by 2. |
| ThrottleControl.NextIsSafe | firmware/throttle/src/throttle_control.cpp:34-183 | Every throttle routine keeps the invariant and guards and tracks its relay writes. |
| ThrottleControl.RunIsSafe | firmware/throttle/src/throttle_control.cpp:34-183 | Over any run from a safe state, the invariant holds and the relay writes are guarded, alternate, and end at the enabled flag. |
| ThrottleControl.InvalidRunCounts | firmware/throttle/src/throttle_control.cpp:84-100 | Consecutive invalid readings add one each to the counter. Below 4 nothing else happens. At 4 or more the module is disabled with the DTC latched. |
| ThrottleControl.FourInvalidReadingsDisable | firmware/throttle/src/throttle_control.cpp:84-100 | Four disconnected readings from enabled leave the module disabled with the DTC latched, after exactly one fault report. |
| ThrottleControl.ZeroCommandMapsToMinimum | firmware/throttle/src/throttle_control.cpp:120-130 | A zero command writes each range's minimum. |
| ThrottleControl.DisableIsIdempotent | firmware/throttle/src/throttle_control.cpp:164-166 | A second disable changes nothing and emits nothing. |
| ThrottleInit.InitGlobals | firmware/throttle/src/init.cpp:20-25 | Power-on state: disabled, not overridden, no DTC latched. |
| ThrottleInit.InitDevices | firmware/throttle/src/init.cpp:28-41 | The only relay or DAC write during device set-up releases the spoof relay. |
| ThrottleInit.PowerOnRelayTracksControl | firmware/throttle/src/init.cpp:20-41 | After power-on the relay position agrees with the disabled flag, whatever level the pin held before set-up. From the energised level the write is a genuine release. |
| ThrottleInit.Accepts | firmware/throttle/src/init.cpp:53-60 | The programmed filters pass an 11-bit id exactly when it lies in the throttle block or the fault block (same id without its low nibble), or equals the throttle disable id. |
| ThrottleInit.Buffer0MatchesBlock | firmware/throttle/src/init.cpp:53-57 | Mask 0x7F0 matches exactly the ids that agree with the filter apart from the low nibble. |
| ThrottleInit.Buffer1MatchesOnly | firmware/throttle/src/init.cpp:59-60 | Mask 0x7FF matches only the filter id itself. |
| ThrottleInit.DefaultWrites | firmware/throttle/src/init.cpp:72-78 | Seven writes, one per configuration cell. Each writes that cell's default, and every cell is covered. |
| ThrottleInit.LoadConfig | firmware/throttle/src/init.cpp:83-89 | Each loaded configuration field equals its EEPROM cell. |
| ThrottleInit.InitConfig | firmware/throttle/src/init.cpp:64-90 | With the magic word present nothing is written. Otherwise the seven defaults are written and then the magic word. The loaded fields equal the stored cells. |
| ThrottleInit.InitConfigSeedsDefaults | firmware/throttle/src/init.cpp:64-90 | Afterwards the magic cell holds the magic word. A first boot loads exactly the defaults. A later boot loads exactly what was stored. |
| ThrottleInit.InitConfigIsIdempotent | firmware/throttle/src/init.cpp:64-90 | A second boot writes nothing and loads the same configuration. |
| ThrottleInit.ConfigWriteSurvivesRestart | firmware/throttle/src/init.cpp:68-89 | A value written into a seeded EEPROM is what the next boot loads. |
| Eeprom.Write | firmware/throttle/src/init.cpp:72-79 | The written cell reads back the value, and every other cell is unchanged. |
| Eeprom.LastWrite | firmware/throttle/src/init.cpp:72-79 | There is no last write exactly when no write touches the cell. Otherwise it is the value of the last write to that cell: a write to the cell with no later write to it. |
| Eeprom.ReadAfterWriteAll | firmware/throttle/src/init.cpp:72-79 | After a batch of writes each cell holds its last written value, or its old value if untouched. |
| SteeringControl.EnableControl | firmware/steering/src/steering_control.cpp:171-192 | The module ends enabled exactly when it was enabled or not overridden. A transition clears the timeout flag and closes the relay. The filter is kept. |
| SteeringControl.DisableControl | firmware/steering/src/steering_control.cpp:195-217 | The module ends disabled. From enabled it opens the relay and resets the filter and the timeout flag. From disabled nothing changes. |
| SteeringControl.ReadTorqueSensor | firmware/steering/src/steering_control.cpp:227-234 | Each 10-bit sample is scaled by `<< 2` into a multiple of 4, at most 4092, from which the sample is recovered. |
| SteeringControl.TorqueDifference | firmware/steering/src/steering_control.cpp:54 | The absolute channel difference is 0 exactly when the channels agree. |
| SteeringControl.EmaStep | firmware/steering/src/steering_control.cpp:219-225 | The filtered value lies between the input and the previous average. An input equal to the average is a fixed point. |
| SteeringControl.FilterUpdate | firmware/steering/src/steering_control.cpp:58-66 | A zero filter is seeded with the raw difference. Otherwise the result lies between the previous and the raw value. |
| SteeringControl.CheckForOperatorOverride | firmware/steering/src/steering_control.cpp:45-94 | It is inactive unless enabled or overridden. A filtered difference strictly above the threshold disables, sets the override and its DTC, and reports. Otherwise the override and its DTC are cleared and the filter is stored. The invariant is kept. |
| SteeringControl.CheckTorqueSensorData | firmware/steering/src/steering_control.cpp:236-254 | As written, `return 0` discards the error count, so every reading is valid. |
| SteeringControl.SensorFaultStep | firmware/steering/src/steering_control.cpp:109-136 | Valid readings clear the counter and the DTC. Invalid readings count up, and from the 4th one disable, latch and report. |
| SteeringControl.CheckForSensorFaults | firmware/steering/src/steering_control.cpp:97-138 | Active only while enabled or latched. As written it only clears. |
| SteeringControl.UpdateSteering | firmware/steering/src/steering_control.cpp:141-168 | While enabled it emits one DAC write with both commands clamped into their ranges. While disabled it emits nothing. |
| SteeringControl.NextIsSafe | firmware/steering/src/steering_control.cpp:45-217 | Every steering routine keeps the invariant and guards and tracks its relay writes. |
| SteeringControl.RunIsSafe | firmware/steering/src/steering_control.cpp:45-217 | Over any run from a safe state, the invariant holds and the relay writes are guarded, alternate, and end at the enabled flag. |
| SteeringControl.SensorFaultNeverLatches | firmware/steering/src/steering_control.cpp:250 | With the early `return 0`, the sensor DTC is never latched on any run. |
| SteeringControl.SmallDifferencesNeverOverride | firmware/steering/src/steering_control.cpp:58-68 | While every torque difference stays at or below the threshold, the filter stays at or below it. There is no override, no change of the enabled flag and no effect. |
| SteeringControl.ResetFilterCommitsOnFirstLargeDifference | firmware/steering/src/steering_control.cpp:58-83 | With a reset filter, one large difference commits the override at once, because the seed skips the averaging. |
| SteeringControl.DisableIsIdempotent | firmware/steering/src/steering_control.cpp:195-197 | A second disable changes nothing and emits nothing. |
| SteeringTimers.StartTimers | firmware/steering/src/timers.cpp:27-31 | Two registrations on distinct timers: the fault check every 200 ms, and the report at the publish frequency. |
| SteeringTimers.CheckForFaults | firmware/steering/src/timers.cpp:34-45 | After a tick the timeout flag is armed. Effects, the enabled flag, the override flag and the filter are those the watchdog produced. When the sensor check is active on the watchdog's result, the tick resets the fault counter and releases the invalid-sensor DTC. Otherwise the state is the watchdog's result with only the flag armed. |
| SteeringTimers.SilentLinkDisablesWithinTwoTicks | firmware/steering/src/timers.cpp:34-45 | With a watchdog that disables when armed, two ticks with no command in between leave control disabled. |
| SteeringTimers.CommandBetweenTicksKeepsControl | firmware/steering/src/timers.cpp:34-45 | A command that clears the flag between ticks keeps an enabled module enabled through the next tick. |
| BrakeCommunications.WithField | firmware/brake/kia_soul_ev/src/communications.cpp:158-211 | Setting one configuration field changes that field only. |
| BrakeCommunications.DecodeConfigName | firmware/brake/kia_soul_ev/src/communications.cpp:158-211 | A decoded name carries the frame's code. No name is decoded exactly when no name has that code. |
| BrakeCommunications.DecodeConfigNameInvertsCode | firmware/brake/kia_soul_ev/src/communications.cpp:158-211 | With distinct codes, decoding a name's code gives back the name. |
| BrakeCommunications.ProcessConfigU16 | firmware/brake/kia_soul_ev/src/communications.cpp:150-213 | An unknown name changes nothing. A known name writes the value into both the EEPROM cell and the running configuration field. |
| BrakeCommunications.ProcessConfigU16KeepsSync | firmware/brake/kia_soul_ev/src/communications.cpp:150-213 | The running configuration stays equal to the EEPROM contents. |
| BrakeCommunications.ProcessRxFrame | firmware/brake/kia_soul_ev/src/communications.cpp:84-114 | A missing frame or wrong magic bytes do nothing. Each control call and each configuration change can come only from its own identifier. |
| BrakeCommunications.DispatchByIdentifier | firmware/brake/kia_soul_ev/src/communications.cpp:92-111 | With distinct ids, a magic frame maps as follows. Enable calls enable. Disable and fault report call disable. Command calls update with the high and low spoof values. Config processes the configuration. |
| BrakeCommunications.ProcessRxFrameKeepsSync | firmware/brake/kia_soul_ev/src/communications.cpp:84-114 | Any received frame keeps the configuration equal to the EEPROM contents. |
| BrakeCommunications.BoolByte | firmware/brake/kia_soul_ev/src/communications.cpp:39-40 | The `(uint8_t)` cast of a bool is 0 exactly for false and at most 1. |
| BrakeCommunications.PublishBrakeReport | firmware/brake/kia_soul_ev/src/communications.cpp:33-50 | The report goes on the report id with the magic bytes and 0/1 flags. |
| BrakeCommunications.BrakeReportRoundTrip | firmware/brake/kia_soul_ev/src/communications.cpp:37-41 | Reading a brake report back gives the control state it was built from. |
| BrakeCommunications.PublishFaultReport | firmware/brake/kia_soul_ev/src/communications.cpp:53-69 | The fault report goes on the fault id with the magic bytes, the brake origin and the current DTCs. |
| BrakeCommunications.PublishedFaultDisablesReceiver | firmware/brake/kia_soul_ev/src/communications.cpp:132-147 | A published fault report, received by a brake module, calls disable. |
| GatewayCommunications.Received | platforms/kia_soul/firmware/can_gateway/src/communications.cpp:246-253 | Receiving a signal clears its warning and stamps its receive time. Nothing else changes. |
| GatewayCommunications.ProcessObdSteeringWheelAngle | platforms/kia_soul/firmware/can_gateway/src/communications.cpp:238-255 | Stores the angle and a zero rate, sets angle-valid and clears rate-valid, clears the warning and stamps the time. Other flags are kept. |
| GatewayCommunications.ProcessObdWheelSpeed | platforms/kia_soul/firmware/can_gateway/src/communications.cpp:258-276 | Stores the four wheel speeds, sets wheel-speed-valid, clears the warning and stamps the time. |
| GatewayCommunications.ProcessObdBrakePressure | platforms/kia_soul/firmware/can_gateway/src/communications.cpp:279-294 | Stores the pressure, sets pressure-valid, clears the warning and stamps the time. |
| GatewayCommunications.ProcessObdTurnSignal | platforms/kia_soul/firmware/can_gateway/src/communications.cpp:297-321 | Left is on exactly for the left code. Right is on exactly for the right code when it is not the left code. The brake-signal flag is cleared. Other flags and the data are kept. |
| GatewayCommunications.ProcessObdVehicleSpeed | platforms/kia_soul/firmware/can_gateway/src/communications.cpp:323-335 | Stores the speed, clears the warning and stamps the time. Flags are kept. |
| GatewayCommunications.ProcessObdEngineRpmTemp | platforms/kia_soul/firmware/can_gateway/src/communications.cpp:337-350 | Stores rpm and temperature, clears the warning and stamps the time. Flags are kept. |
| GatewayCommunications.ProcessObdGearPosition | platforms/kia_soul/firmware/can_gateway/src/communications.cpp:352-364 | Stores the gear, clears the warning and stamps the time. Flags are kept. |
| GatewayCommunications.ProcessObdAcceleratorPedalPosition | platforms/kia_soul/firmware/can_gateway/src/communications.cpp:366-378 | Stores the pedal position, clears the warning and stamps the time. Flags are kept. |
| GatewayCommunications.DecodeSignal | platforms/kia_soul/firmware/can_gateway/src/communications.cpp:386-417 | A decoded signal carries the frame id. Nothing is decoded exactly when no signal has that id. |
| GatewayCommunications.DecodeSignalInvertsId | platforms/kia_soul/firmware/can_gateway/src/communications.cpp:386-417 | With distinct ids, decoding a signal's id gives back the signal. |
| GatewayCommunications.ProcessRxFrame | platforms/kia_soul/firmware/can_gateway/src/communications.cpp:381-419 | A missing frame or an unknown id changes nothing. A known id runs exactly that signal's handler on the frame's data, which clears only that signal's warning, stamps only its receipt time and touches only its own flags. |
| GatewayCommunications.Handle | platforms/kia_soul/firmware/can_gateway/src/communications.cpp:238-378 | Whichever `process_obd_*` handler runs, only its signal loses its warning and gets a new receipt time. Only the flags that signal owns can change, and send stamps are kept. |
| GatewayCommunications.DispatchByIdentifier | platforms/kia_soul/firmware/can_gateway/src/communications.cpp:381-419 | With distinct ids, a frame carrying a signal's id runs exactly that signal's handler on the frame's data. |
| GatewayCommunications.ClearedOnTimeoutIsOwned | platforms/kia_soul/firmware/can_gateway/src/communications.cpp:72-162 | A signal's timeout clears exactly the flags that signal's frames set. |
| GatewayCommunications.ApplyTimeoutsEffect | platforms/kia_soul/firmware/can_gateway/src/communications.cpp:72-162 | Running the timeouts in order warns exactly the timed-out signals and clears exactly their flags. |
| GatewayCommunications.CheckForObdTimeout | platforms/kia_soul/firmware/can_gateway/src/communications.cpp:72-162 | A signal is warned exactly when it was warned or has timed out. A flag survives exactly when it was set and its owner did not time out. Data and stamps are kept. |
| GatewayCommunications.AllSignalsChecked | platforms/kia_soul/firmware/can_gateway/src/communications.cpp:72-162 | The timeout pass covers every OBD signal. |
| GatewayCommunications.Compose | platforms/kia_soul/firmware/can_gateway/src/communications.cpp:177-235 | The heartbeat alone carries the heartbeat payload, on id report-base plus node id. It holds the build's hardware and firmware versions and the warning bits. The chassis reports go on their own ids. |
| GatewayCommunications.PublishDueEffect | platforms/kia_soul/firmware/can_gateway/src/communications.cpp:42-69 | The due reports are sent in order, each composed from the state, and exactly their send stamps move to now. |
| GatewayCommunications.PublishReports | platforms/kia_soul/firmware/can_gateway/src/communications.cpp:42-69 | Exactly the due reports are sent, in source order. Their stamps become now, the others keep theirs, and the chassis state is unchanged. |
| GatewayCommunications.AllReportsPublished | platforms/kia_soul/firmware/can_gateway/src/communications.cpp:42-69 | Every report kind is considered by the publish pass. |
| GatewayCommunications.PublishReportsIsIdempotent | platforms/kia_soul/firmware/can_gateway/src/communications.cpp:42-69 | A second publish pass at the same instant sends nothing and changes nothing. |
| GatewayCommunications.NextKeepsTurnSignalsConsistent | platforms/kia_soul/firmware/can_gateway/src/communications.cpp:297-321 | Every gateway step keeps the left and right turn flags from both being set. |
| GatewayCommunications.RunKeepsTurnSignalsConsistent | platforms/kia_soul/firmware/can_gateway/src/communications.cpp:297-321 | Over any run, left and right turn signals are never reported on together. |
| GatewayCommunications.SteeringAngleFrameRecoversFromTimeout | platforms/kia_soul/firmware/can_gateway/src/communications.cpp:238-255 | After a steering-angle timeout, the next steering-angle frame clears the warning and sets the angle-valid flag again. |

## Left out

- LEDs, `DEBUG_PRINT`, and the `cli()`/`sei()` interrupt masking are left out. Every routine is one atomic step, which is what the masking gives.
- `prevent_signal_discontinuity` is not modelled as its averaging loop. It appears as one `SampleSensors(20)` effect, so the proofs can state that every relay switch comes right after it.
- `analogRead`, the DAC, the relay pins and the CAN controller are effects or parameters. Pin numbers, pin-mode set-up and the DAC chip-select deselect in `init_devices` are left out.
- Every time-dependent routine reads `millis()` or `GET_TIMESTAMP_MS()` several times. The model takes one `now` per call.
- Vehicle calibration is a parameter. This covers signal ranges, thresholds, the CAN ids, magic bytes, configuration codes, the gateway's hardware and firmware version numbers, and the byte layouts of commands and OBD frames. It is defined in the vehicle headers, which are not part of this model.
- DTC bit positions: invalid-sensor is taken as bit 0 and operator-override as bit 1. The headers that define them are not part of this model. Every property holds for any two distinct positions.
- SteeringControl.EmaStep: the source computes the filter in `float` and truncates it to `uint16_t`. The model uses the integer `(input + 99 * average) / 100`, which can differ from the float result by one step. The bounds stated hold for both.
- Fault counters are unbounded integers. The 16-bit `int fault_count` would take 32768 consecutive invalid readings to overflow, and that is not modelled.
- `check_for_controller_command_timeout` (steering) and `is_timeout`/`get_time_delta` (gateway) are defined in files that are not part of this model. They are function parameters, and each lemma states what it needs of them.
- ThrottleControl.CheckAcceleratorPositionData: the throttle source file has no definition for it. It is modelled from the header's documented contract (an error count, 0 when both channels are in range), with the same `>> 2` scaling as the brake and steering checks. Sensor faults in the throttle source do not call it; they use the zero-channel test.
- The header names the throttle channels `A`/`B`, while the `.cpp` uses `high`/`low`. The model follows the `.cpp`.
- The brake CAN layer belongs to the Kia Soul EV build, and the brake control routines to the Soul EV/Niro build. The two builds are not wired together. `BrakeCommunications.ProcessRxFrame` returns the control call it would make (`enable_control`, `disable_control`, `update_brake(high, low)`) instead of running it.
- The `data != NULL` checks in `process_brake_command` and `process_fault_report` cannot fail in the model, because a frame always carries its eight data bytes.
- `check_for_incoming_message` / `check_for_rx_frame` are modelled as an `Option` frame handed to `ProcessRxFrame`.
- ThrottleInit.Accepts: only the filters `init_communication_interfaces` programs are modelled. Buffer 1's filters 3 to 5 keep whatever the CAN library leaves in them, and that library is not part of this model. The "exactly" holds only if those filters accept nothing more.
- The steering CAN layer and the steering report publisher are not part of this model. The timer only registers them.
