# Workstation controller core, modelled in Dafny

This project models the control core of the LEMS ESP32-S3 workstation
firmware:

- the shared workstation record (`g_CurrentWorkStaStatus` plus the
  `gTag_cardPresent`, `gTag_emergencyMode` and `gFlag_forceUpload` flags) and
  every operation that changes it. These are the HTTP control handlers, the
  MQTT `property/set` command path, the RFID card callback, the automatic
  light/relay control, `control_all_relays`, `enable_power_only`,
  `emergency_power_off` and `remote_power_control`;
- the anomaly detector `detect_sensor_anomalies`. Its emergency band makes
  the first breach win and latches the lockout. In its warning band every
  breach takes effect but only the first is returned;
- the upload scheduler and the sampling loop of `Task_ReadSensorValue`;
- the text scan `extract_json_value`, with the C behaviour it relies on: the
  first occurrence found by `strstr`, the NUL terminator, and `atoi` on a
  digit run;
- the 10-byte user name read from a MIFARE card block;
- the key debounce and long-press recogniser of `components/key/key.c`;
- the constants of `config.h` and the initial values of `config.c`.

Each core file keeps its form:

- `Station` states every mutator as a function from the old record to the
  new one.
- The `Workstation.Workstation` class holds the same fields and updates them
  in place. Each method is proved to leave the record exactly as the
  matching `Station` function says, so the lemmas about those functions hold
  of the object.
- The sampling loop is a `SensorTask` class whose fields are the two
  `uint8_t` counters.
- The key contexts are an `array` updated in place, proved against the pure
  one-key step `Key.Step`.

The outside world becomes parameters:

- the calibrated readings of a sample;
- whether MQTT is connected;
- the card block, or its absence when reading fails;
- the sampled key levels;
- whether the key queue exists.

Published MQTT messages and uploads are returned as values (`Publication`,
`Payload`) rather than formatted as JSON.

The code behaves in these ways that its names and comments do not suggest;
each is stated as a lemma:

- An MQTT command never raises the force-upload flag (`MqttCommandFrame`).
- Presenting a card does not clear the lockout but does switch the power on
  (`CardPresentBreaksLockout`).
- `enable_power_only` drives the light and relay pins low without clearing
  their fields in the record (`EnablePowerOnlyDesynchronises`).
- The MQTT light and relay keys are not blocked during the lockout: any of
  them can switch its output on while the lockout stays latched
  (`MqttOutputIgnoresLockout`, `MqttSwitchOnBreaksLockout`,
  `MqttLightBreaksLockout`).
- An HTTP power-off resets any user to "null". An MQTT power-off only
  resets the administrator (`PowerOffUsernameDiffers`).
- `remote_power_control(1)` never records `powerStatus`
  (`RemotePowerControlSkipsStatus`).
- While latched, the sampling loop keeps running the upload scheduler
  (`CycleWhileLatched`).

## Model

| member | source | states |
|---|---|---|
| Config.AlertCode | main/inc/config.h:86-99 | the C enumeration values: every alert's code is at most 10, and the code is 0 exactly for `ALERT_NONE` |
| Config.EmergencyBandIsContiguous | main/main.c:854 | the range test `ALERT_FIRE_EMERGENCY <= alert <= ALERT_HEAT_EMERGENCY` holds exactly for the four emergency alerts; codes 5..10 are exactly the warnings; every alert is none, emergency or warning |
| Config.AlertCodeInjective | main/inc/config.h:86-99 | distinct alerts have distinct enumeration values |
| Config.ReservedNamesFit | main/src/config.c:50-51 | "null", the administrator name and "UNKNOWN" fit the 12-byte `curUsername` buffer, and so does any NUL-free name of up to ten characters |
| JsonScan.CString | main/main.c:1151-1159 | the C string in a buffer is a NUL-free prefix ending at the first NUL or at the end |
| JsonScan.FindFrom | main/main.c:574-580 | `strstr`: a found index holds an occurrence and no earlier index does; none found means no occurrence at all |
| JsonScan.SkipBlanks | main/main.c:585-589 | the index reached is past only spaces and tabs and stops at a non-blank or the end |
| JsonScan.DigitRunEnd | main/main.c:591-595 | the digit run that `atoi` reads: digits only, ending at a non-digit or the end |
| JsonScan.ExtractJsonValue | main/main.c:571-598 | the loop computes `JsonValue`; the result is at least -1, and it is -1 exactly when `"key":` is absent or the first non-blank after it is not a digit |
| JsonScan.DigitsRoundTrip | main/main.c:594 | reading back the decimal text of `n` gives `n` |
| JsonScan.FindLocates | main/main.c:574-580 | a pattern written after a prefix that does not already contain it is where `strstr` finds it |
| JsonScan.JsonValueOfDigits | main/main.c:571-598 | `"key":`, blanks and a digit run not followed by a digit give the value of the run |
| JsonScan.JsonValueRoundTrip | main/main.c:571-598 | round trip: `"key":`, blanks and the decimal text of `n` give back `n` |
| JsonScan.JsonValueNotNumber | main/main.c:585-597 | a non-digit after `"key":` and blanks gives -1, while the quoted key still counts as present on the command path |
| Card.CardUsername | main/main.c:1303-1342 | the card's user name fits the buffer, has 1 to 10 characters and is never "null" |
| Card.ExtractCardUsername | main/main.c:1303-1342 | the copy loop, the zero-count fallback, the 32-byte buffer and the sanitising checks yield exactly `CardUsername` |
| Card.CardNameRoundTrip | main/main.c:1303-1342 | a 1-10 byte NUL-free name other than "null", terminated when shorter than ten bytes, is read back unchanged |
| Card.UnreadableCardIsUnknown | main/main.c:1333-1342 | a block starting with NUL, or storing "null", yields "UNKNOWN" |
| Anomaly.MatchesExactlyFiring | main/main.c:449-542 | the matches of a rule list are exactly the rules of the list that fire |
| Anomaly.FirstMatchIsEarliest | main/main.c:338-443 | the first match is the earliest rule that fires |
| Anomaly.NoMatchNoneFires | main/main.c:338-443 | no match exactly when no rule fires |
| Anomaly.DetectWhileLatched | main/main.c:331-335 | while latched the detector returns `ALERT_NONE`, latches nothing, raises no flag and reports nothing |
| Anomaly.EmergencyFirstBreachWins | main/main.c:338-443 | the lockout is entered exactly when an emergency threshold is breached; the alert is the first breach in the order flame, smoke, temperature, heat; only it is reported; no force-upload |
| Anomaly.WarningAllApply | main/main.c:449-542 | with no emergency breach, the reported rules are exactly the warning rules that fire, and the flag is raised exactly when one fires |
| Anomaly.NoEmergencyMatch | main/main.c:338-443 | without a breach no emergency rule matches |
| Anomaly.WarningFirstReturned | main/main.c:449-542 | the warning returned is the first breach among smoke, high and low temperature, high and low humidity, and otherwise none |
| Anomaly.FireWarningUnreachable | main/main.c:338-542 | the fire warning is never returned (its threshold equals the emergency one), and a smoke warning only for smoke in (90, 95] |
| Anomaly.WarningPairsExclusive | main/main.c:478-541 | at most one temperature and one humidity warning per sample; the -1 sentinel never fires a low-reading rule |
| Anomaly.UnsampledReadingsAreQuiet | main/src/config.c:56-60 | the boot readings trigger no alert, lockout or flag |
| Anomaly.WorkedCases | main/main.c:338-542 | 36 degrees gives a high-temperature warning with a forced upload and no lockout; a flame reading of 75 gives a fire emergency with the lockout |
| Anomaly.AlertNamesRoundTrip | main/main.c:32-59 | each alert name reads back as its alert; only `ALERT_NONE` is "UNKNOWN" |
| Anomaly.AlertNamesDistinct | main/main.c:32-59 | distinct alerts have distinct names |
| Station.WarningEvents | main/main.c:449-542 | one non-emergency alert event per fired warning rule, in order, carrying its reading and threshold |
| Station.InitialIsQuiet | main/src/config.c:44-60 | the initial record has user "null", everything off and in agreement with its pins, no lockout or flags, and detection on it does nothing |
| Station.ControlAllRelaysOff | main/main.c:549-563 | `control_all_relays(0)` turns all four outputs off in the record and on the pins and changes nothing else |
| Station.EmergencyPowerOffLocksOut | main/main.c:628-663 | the lockout is latched with every output off; the user and flags are kept; one event naming the current user is published exactly when connected |
| Station.DetectStepLatched | main/main.c:331-335 | while latched, detection changes and publishes nothing |
| Station.DetectStepEmergency | main/main.c:338-444 | a breach powers everything off and latches; the user and flag are kept; when connected, the power-off event and then the emergency alert for the same rule are published |
| Station.DetectStepWarning | main/main.c:449-542 | without a breach, only the force-upload flag changes, rising exactly when a warning fires; one non-emergency event per fired warning |
| Station.DetectStepKeepsInvariants | main/main.c:324-543 | detection keeps the lockout property, pin agreement and the user-name bound |
| Station.OutputRequestOutcome | main/main.c:129-267 | a status other than 0/1 is refused and a request during the lockout is blocked, both with no change; otherwise exactly that output is set (record and pin), the flag is raised, and power plays no part |
| Station.OutputRequestKeepsInvariants | main/main.c:129-267 | light and relay requests never break the lockout and keep the pins in agreement |
| Station.PowerRequestOutcome | main/main.c:66-123 | 1 clears the lockout, makes "null" the administrator and powers on; 0 turns everything off and resets the user to "null"; both raise the flag; other values change nothing |
| Station.MqttPowerOutcome | main/main.c:1172-1208 | an MQTT value of 1 powers on like HTTP without raising the flag; any other value turns everything off and resets only the administrator user |
| Station.PowerOffUsernameDiffers | main/main.c:108-119 | a card user is logged out by an HTTP power-off but not by an MQTT one |
| Station.MqttOutputFrame | main/main.c:1164-1224 | one output key of a command changes only the light and relay fields and pins |
| Station.MqttCommandFrame | main/main.c:1140-1230 | other topics are ignored; a command never raises the force-upload flag or changes the card flag, readings or code, and keeps the user name in bounds |
| Station.MqttPowerOffOverridesLight | main/main.c:1164-1208 | keys apply in order, so a power-off in the same message overrides a light setting |
| Station.MqttLightOnly | main/main.c:1164-1170 | a message with only the light key acts as the light step alone |
| Station.MqttPowerOnly | main/main.c:1172-1208 | a message with only the power key acts as the power step alone |
| Station.LightOnMessage | main/main.c:1164-1170 | `{"LightStatus":"on"}` names the light key with a value that reads as -1 |
| Station.QuotedPowerMessage | main/main.c:1172-1208 | `{"PowerStatus":"1"}` names the power key with a value that reads as -1 |
| Station.MqttOutputStep | main/main.c:1164-1224 | one light or relay step sets its own output (record and pin) to the extracted value when its quoted key is present, and leaves the other outputs, the power and the lockout alone |
| Station.MqttOutputIgnoresLockout | main/main.c:1164-1224 | during the lockout, a command without a power key sets every light or relay output it names to the extracted value and keeps the latch; a nonzero value breaks the lockout property |
| Station.OneAfterBrace | main/main.c:571-598 | `{"key":1}` reads as 1 for the key, and the quoted key is present |
| Station.SwitchOnMessage | main/main.c:1151-1224 | `{"LightStatus":1}`, `{"RelayNum1Status":1}` and `{"RelayNum2Status":1}` are their own C strings, name their key with value 1 and hold no power key |
| Station.MqttSwitchOnBreaksLockout | main/main.c:1164-1224 | during the lockout, `{"LightStatus":1}`, `{"RelayNum1Status":1}` or `{"RelayNum2Status":1}` switches that output on in the record and on its pin while the latch stays set |
| Station.MqttLightBreaksLockout | main/main.c:1164-1170 | during the lockout, `{"LightStatus":"on"}` stores -1, drives the light pin high and keeps the latch, so the lockout property fails |
| Station.MqttQuotedPowerSwitchesOff | main/main.c:1172-1208 | a quoted power value is not a number and switches the workstation off |
| Station.CardPresentOutcome | main/main.c:1348-1359 | a readable card sets the card flag, powers on with the other pins low, takes the card's user and raises the flag, leaving the other fields and the lockout alone; an unreadable one changes nothing |
| Station.CardPresentBreaksLockout | main/main.c:1348-1359 | a card presented during the lockout switches the power on while still latched |
| Station.EnablePowerOnlyDesynchronises | main/main.c:604-619 | a light or relay that was on stays marked on while its pin goes low |
| Station.RemotePowerControlSkipsStatus | main/main.c:670-691 | switching on clears the lockout, raises the power pin and turns the light off without recording `powerStatus`; switching off turns everything off |
| Station.CardRemovedOutcome | main/main.c:1376-1392 | card removal turns every output off, resets the user to "null", raises the flag and leaves the lockout alone |
| Station.CardSwap | main/main.c:1348-1392 | removing a card and presenting another leaves only the power on, in agreement with the pins, for the new user |
| Station.AutoControlOutcome | main/main.c:806-845 | powered and unlatched: light on exactly when dark, relay 1 on exactly when smoky, nothing else changes; otherwise no change; idempotent; keeps the lockout and pin agreement |
| Station.UsernameFitsAfterCommands | main/inc/config.h:63 | every command handler keeps the user name within its 12-byte buffer |
| Station.UsernameFitsAfterEvents | main/inc/config.h:63 | card events, automatic control and detection keep the user name within its buffer |
| Workstation.Workstation.constructor | main/src/config.c:44-60 | pins low and the record's initial values |
| Workstation.Workstation.ControlAllRelays | main/main.c:549-563 | the new record is `Station.ControlAllRelays` of the old one |
| Workstation.Workstation.EmergencyPowerOff | main/main.c:628-663 | new record and published events are `Station.EmergencyPowerOff` of the old record |
| Workstation.Workstation.EnablePowerOnly | main/main.c:604-619 | the new record is `Station.EnablePowerOnly` of the old one |
| Workstation.Workstation.RemotePowerControl | main/main.c:670-691 | the new record is `Station.RemotePowerControl` of the old one |
| Workstation.Workstation.PowerHandler | main/main.c:79-121 | new record and response are `Station.PowerRequest` of the old record |
| Workstation.Workstation.LightHandler | main/main.c:142-170 | new record and response are `Station.OutputRequest` for the light |
| Workstation.Workstation.Relay1Handler | main/main.c:190-218 | new record and response are `Station.OutputRequest` for relay 1 |
| Workstation.Workstation.Relay2Handler | main/main.c:238-266 | new record and response are `Station.OutputRequest` for relay 2 |
| Workstation.Workstation.MqttPower | main/main.c:1172-1208 | the new record is `Station.MqttPower` of the old one |
| Workstation.Workstation.MqttOutput | main/main.c:1164-1224 | the new record is `Station.MqttOutput` of the old one |
| Workstation.Workstation.MqttCommand | main/main.c:1140-1230 | the new record is `Station.MqttCommand` of the old one |
| Workstation.Workstation.OnCardPresent | main/main.c:1348-1359 | the new record is `Station.CardPresent` of the old one |
| Workstation.Workstation.OnCardRemoved | main/main.c:1376-1392 | the new record is `Station.CardRemoved` of the old one |
| Workstation.Workstation.OnCardStateChanged | main/main.c:1252-1395 | the new record is `Station.CardStateChanged` of the old one |
| Workstation.Workstation.StoreReadings | main/main.c:773-776 | only the readings change |
| Workstation.Workstation.AutoControl | main/main.c:806-845 | the new record is `Station.AutoControl` of the old one |
| Workstation.Workstation.EmergencyBreach | main/main.c:338-444 | for the first firing emergency rule, new record, alert and events are those of `Station.DetectStep` |
| Workstation.Workstation.WarningBand | main/main.c:449-542 | the six warning blocks run in order give the band fold `WarnAll` over the warning rules |
| Workstation.Workstation.DetectSensorAnomalies | main/main.c:324-543 | new record, returned alert and published events are exactly `Station.DetectStep` of the old record |
| Workstation.WarnIfBreached | main/main.c:449-541 | one warning block: on a breach, publish if connected, raise the flag, and take the alert unless one is set |
| Workstation.WarnAllMatches | main/main.c:449-542 | the blocks in turn report exactly the matching rules in order, keep the first alert, and raise the flag iff one matched |
| Workstation.WarningBandOutcome | main/main.c:449-542 | without an emergency match, `DetectStep` is the warning band run from no alert and no events |
| Scheduler.Sent | main/main.c:919-991 | something is sent only when connected and asked for; full and basic exactly when connected and asked for |
| Scheduler.ScheduleTickDecision | main/main.c:875-917 | full exactly when forced or the upload counter reaches 12; basic exactly when not, with no card user and the basic counter at 6; the flag is always cleared; forcing resets both counters |
| Scheduler.FullWinsOverBasic | main/main.c:884-917 | when both periods fall due together, only the full upload is asked for and both counters restart |
| Scheduler.ScheduleTickKeepsBounds | main/main.c:875-917 | the counters stay below 12 and 6, so the `uint8_t` increments never wrap |
| Scheduler.RunFromStart | main/main.c:766-768 | after `n` quiet samples the counters are `n mod 12` and `n mod 6` (0 with a card user) |
| Scheduler.PeriodicUploads | main/main.c:875-917 | sample `n` asks for a full upload exactly when 12 divides `n`; it asks for a basic one exactly when no user is present and 6 but not 12 divides `n` |
| SensorTask.SensorTask.constructor | main/main.c:766-768 | both counters start at 0 |
| SensorTask.SensorTask.Tick | main/main.c:875-991 | counters, flag and payload sent follow `ScheduleTick` and `Sent` |
| SensorTask.SensorTask.Cycle | main/main.c:773-991 | one loop pass leaves record, counters, alert, events and payload as `SamplingCycle` says |
| SensorTask.SensorTask.Run | main/main.c:753-994 | the record and counters end as `Cycles`, the passes applied one after the other, leaves them, and every pass keeps the lockout property, pin agreement, the user-name bound and the counter bounds |
| SensorTask.CyclesKeepInvariant | main/main.c:753-994 | any run of samples keeps the lockout property, pin agreement, the user-name bound and the counter bounds |
| SensorTask.CycleKeepsInvariant | main/main.c:773-991 | one pass keeps that loop invariant |
| SensorTask.CycleEmergencySkipsUpload | main/main.c:852-862 | an emergency pass latches with every output off and skips the automatic control and the scheduler |
| SensorTask.CycleWhileLatched | main/main.c:803-991 | a latched pass detects nothing and runs the scheduler as usual |
| SensorTask.CycleConsumesForce | main/main.c:892-930 | outside an emergency, a raised flag or a warning produces a full upload in the same pass and the flag is consumed |
| Key.Keys.constructor | components/key/key.c:23 | the static context array: two zero-initialised contexts |
| Key.Keys.Init | components/key/key.c:36-43 | every context IDLE with id `index + 1` and everything else cleared |
| Key.Keys.UpdateKey | components/key/key.c:74-141 | key `i` moves by `Step`, no other context changes, and the handler is called only for a raised event |
| Key.Keys.UpdateState | components/key/key.c:67-143 | the array becomes `TickAll` of the old one, with the messages sent key by key in index order |
| Key.KeyEventHandler | components/key/key.c:146-156 | at most one message, sent exactly when the queue exists and the key is not key 3 or 4, carrying the key and its event |
| Key.InitialContextReachable | components/key/key.c:36-43 | initialised contexts satisfy the recogniser invariant, with ids other than 3 and 4 |
| Key.StepKeepsReachable | components/key/key.c:74-141 | a tick keeps the invariant and the id, the counter never wraps, a short press comes only on release from PRESSED and a long press only when held at the threshold |
| Key.UndefinedStateResets | components/key/key.c:132-135 | a state outside the enumeration falls back to IDLE with its counter restarted and no event |
| Key.TickAllKeepsReachable | components/key/key.c:72-142 | a tick of the array keeps every key's invariant |
| Key.MessagesComeFromEvents | components/key/key.c:137-140 | every message names a key and the event it raised on this tick, never an empty event |
| Key.EventsReachQueue | components/key/key.c:137-156 | with the queue present every raised event is sent; without it nothing is |
| Key.HoldFromIdle | components/key/key.c:77-131 | holding from IDLE spends 2 ticks debouncing and 50 pressed, then stays LONG_ACTIVE; the only event is one long press |
| Key.PressCycle | components/key/key.c:77-131 | a press released after `n` ticks returns to IDLE and raises nothing (n <= 2), a short press (n <= 52) or one long press |

## Left out

- Networking is not modelled: WiFi and MQTT client setup, the HTTP server, the URI table and `app_main`. The MQTT connection state is a parameter.
- HTTP query-string parsing and the response text are not modelled. The handlers start from the parsed `status`, and a missing query is an invalid status.
- JSON formatting of uploads, alerts and power-off events (main/src/json.c) is not part of this model. Payloads and events are values.
- The reason text of `emergency_power_off` is not modelled. It is the breached rule with its reading and threshold.
- ADC and DHT sampling and calibration (`adc_read_all_sensors`) are not modelled. The readings of a sample are an input.
- The RC522 driver and MIFARE authentication are not modelled. The card block is an input, and a failed type check, authentication or read is `None`.
- The reader's state enumeration is abstracted to became-active, became-idle and other.
- `gCardUsername` is not modelled; it only mirrors the name for logging.
- The display task, the sensor-data and key queues' contents, LEDs, `vTaskDelay` and logging are not modelled.
- A failed `malloc` in the MQTT data handler is not modelled, and nor is the topic being compared without its length bound.
- `atoi` overflow for very long digit runs is not modelled. The value of the run is unbounded.
- Concurrent, unsynchronised access to the record by the sampling loop, the HTTP and MQTT handlers and the card callback is not modelled. Each operation is modelled as atomic.
- The development build (`ENABLE_AUTO_POWER_OFF` 0) is not modelled; only the production branch is.
- Key pin configuration and `getKeyPhysicalState` are not modelled; the sampled levels are inputs. A full key queue is modelled like a delivered message, because the zero-timeout send result is ignored.
- Workstation.Workstation.WarningBand: collects the force-upload flag and stores it once at the end instead of at each block, since nothing reads the flag while the band runs.
