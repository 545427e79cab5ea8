/** The workstation state of main/main.c as a value: the fields of the global
    `g_CurrentWorkStaStatus`, the flags `gTag_cardPresent`,
    `gTag_emergencyMode` and `gFlag_forceUpload`, and the levels last driven
    on the four actuator pins. Every mutator of the firmware is a function
    from the old state to the new one; the class in workstation.dfy updates
    its fields in place and is proved to agree with these functions. */
module Station {
  import opened Config
  import opened JsonScan
  import opened Card
  import opened Anomaly

  /** The levels last written to the power, light, relay 1 and relay 2 pins
      (`gpio_set_level` drives a pin high for any nonzero level). */
  datatype Pins = Pins(power: bool, light: bool, relay1: bool, relay2: bool)

  const ALL_PINS_LOW: Pins := Pins(false, false, false, false)

  datatype State = State(
    workstationCode: string,
    curUsername: string,
    powerStatus: int,
    lightStatus: int,
    relayNum1Status: int,
    relayNum2Status: int,
    readings: Readings,
    emergencyMode: bool,
    forceUpload: bool,
    cardPresent: bool,
    pins: Pins)

  /** The three outputs that the HTTP and MQTT paths set one at a time. */
  datatype Output = Light | Relay1 | Relay2

  function OutputStatus(s: State, o: Output): int
  {
    match o
    case Light => s.lightStatus
    case Relay1 => s.relayNum1Status
    case Relay2 => s.relayNum2Status
  }

  function OutputPin(p: Pins, o: Output): bool
  {
    match o
    case Light => p.light
    case Relay1 => p.relay1
    case Relay2 => p.relay2
  }

  /** Why the workstation was powered off: the breached emergency rule, with
      the reading and the threshold that the reason text reports. */
  datatype Reason = Breach(alert: AlertType, value: real, threshold: real)

  /** A message published on the event topic. */
  datatype Publication =
    | EmergencyPowerOffEvent(reason: Reason, username: string)
    | AlertEvent(alert: AlertType, value: real, threshold: real, emergency: bool)

  /** All four outputs are off, in the record and on the pins. */
  predicate OutputsOff(s: State)
  {
    s.powerStatus == 0 && s.lightStatus == 0 && s.relayNum1Status == 0 && s.relayNum2Status == 0
    && s.pins == ALL_PINS_LOW
  }

  /** The safety property the lockout is meant to give: while latched, every
      output is off. */
  predicate LockoutHolds(s: State)
  {
    s.emergencyMode ==> OutputsOff(s)
  }

  /** The recorded status of each output agrees with the level on its pin. */
  predicate PinsAgree(s: State)
  {
    s.pins.power == (s.powerStatus != 0) && s.pins.light == (s.lightStatus != 0)
    && s.pins.relay1 == (s.relayNum1Status != 0) && s.pins.relay2 == (s.relayNum2Status != 0)
  }

  /** The record invariant: the user name fits its 12-byte buffer. */
  predicate Valid(s: State)
  {
    UsernameFits(s.curUsername)
  }

  /** `Init_Config`: the four actuator pins low, the code empty, the user
      "null", all outputs 0, five readings at the sentinel -1 and the heat
      reading at the zero of a static global; the flags start at 0. */
  function Initial(): State
  {
    State("", NULL_USER, 0, 0, 0, 0, Readings(-1.0, -1.0, -1.0, 0.0, -1.0, -1.0),
          false, false, false, ALL_PINS_LOW)
  }

  /** `control_all_relays(enable)`. */
  function ControlAllRelays(s: State, enable: int): State
    requires 0 <= enable < 256
  {
    var on := enable != 0;
    s.(powerStatus := enable, lightStatus := enable, relayNum1Status := enable, relayNum2Status := enable,
       pins := Pins(on, on, on, on))
  }

  /** `emergency_power_off(reason)`: all outputs off, the lockout latched,
      and an `EmergencyPowerOff` event with the current user published when
      MQTT is connected. */
  function EmergencyPowerOff(s: State, reason: Reason, connected: bool): (State, seq<Publication>)
  {
    (ControlAllRelays(s, 0).(emergencyMode := true),
     if connected then [EmergencyPowerOffEvent(reason, s.curUsername)] else [])
  }

  /** `enable_power_only`: light and relay pins low, power pin high, and
      only `powerStatus` updated in the record. */
  function EnablePowerOnly(s: State): State
  {
    s.(powerStatus := 1, pins := Pins(true, false, false, false))
  }

  /** `remote_power_control(enable)`: switching on clears the lockout,
      raises the power pin and turns the light off; switching off turns
      everything off. */
  function RemotePowerControl(s: State, enable: int): State
    requires 0 <= enable < 256
  {
    if enable != 0 then
      s.(emergencyMode := false, lightStatus := 0, pins := s.pins.(power := true, light := false))
    else ControlAllRelays(s, 0)
  }

  /** Set one output to `v` in the record and on its pin. */
  function SetOutput(s: State, o: Output, v: int): State
  {
    match o
    case Light => s.(lightStatus := v, pins := s.pins.(light := v != 0))
    case Relay1 => s.(relayNum1Status := v, pins := s.pins.(relay1 := v != 0))
    case Relay2 => s.(relayNum2Status := v, pins := s.pins.(relay2 := v != 0))
  }

  // ---------------------------------------------------------------------
  // HTTP handlers

  /** The response of a control request. */
  datatype HttpOutcome = Success | InvalidStatus | Blocked

  /** `power_handler` on the parsed `status`. */
  function PowerRequest(s: State, status: int): (State, HttpOutcome)
  {
    if status != 0 && status != 1 then (s, InvalidStatus)
    else if status == 1 then
      var user := if s.curUsername == NULL_USER then ADMIN_USER else s.curUsername;
      (s.(emergencyMode := false, curUsername := user, pins := s.pins.(power := true), powerStatus := 1,
          forceUpload := true), Success)
    else
      (ControlAllRelays(s, 0).(curUsername := NULL_USER, forceUpload := true), Success)
  }

  /** `light_handler`, `relay1_handler` and `relay2_handler` on the parsed
      `status`: validated first, then refused during the lockout. */
  function OutputRequest(s: State, o: Output, status: int): (State, HttpOutcome)
  {
    if status != 0 && status != 1 then (s, InvalidStatus)
    else if s.emergencyMode then (s, Blocked)
    else (SetOutput(s, o, status).(forceUpload := true), Success)
  }

  // ---------------------------------------------------------------------
  // MQTT `property/set` commands

  /** The `PowerStatus` step of the command path, on the extracted value. */
  function MqttPower(s: State, v: int): State
  {
    if v == 1 then
      var user := if s.curUsername == NULL_USER then ADMIN_USER else s.curUsername;
      s.(emergencyMode := false, curUsername := user, pins := s.pins.(power := true), powerStatus := 1)
    else
      var t := ControlAllRelays(s, 0);
      t.(curUsername := if s.curUsername == ADMIN_USER then NULL_USER else s.curUsername)
  }

  /** One key of the command: acted on when the quoted key occurs in the
      message, with whatever `extract_json_value` gives (possibly -1). */
  function MqttOutput(s: State, d: string, key: string, o: Output): State
  {
    if Contains(d, Quoted(key)) then SetOutput(s, o, JsonValue(d, key)) else s
  }

  /** The `MQTT_EVENT_DATA` branch: on a topic containing `property/set`,
      the message (up to its first NUL) is searched for the four keys, which
      are applied in the order light, power, relay 1, relay 2. */
  function MqttCommand(s: State, topic: string, data: string): State
  {
    if !Contains(topic, "property/set") then s
    else
      var d := CString(data);
      var s1 := MqttOutput(s, d, "LightStatus", Light);
      var s2 := if Contains(d, Quoted("PowerStatus")) then MqttPower(s1, JsonValue(d, "PowerStatus")) else s1;
      var s3 := MqttOutput(s2, d, "RelayNum1Status", Relay1);
      MqttOutput(s3, d, "RelayNum2Status", Relay2)
  }

  // ---------------------------------------------------------------------
  // RFID card events

  /** The card-present branch. `block` is block 1 of the card, or `None`
      when the card is not MIFARE Classic compatible or authentication or
      the read failed (the handler then returns without any change). */
  function CardPresent(s: State, block: Option<seq<byte>>): State
    requires block.Some? ==> |block.value| == BLOCK_SIZE
  {
    match block
    case None => s
    case Some(b) =>
      EnablePowerOnly(s.(cardPresent := true)).(curUsername := CardUsername(b), forceUpload := true)
  }

  /** The card-removed branch. */
  function CardRemoved(s: State): State
  {
    ControlAllRelays(s.(cardPresent := false), 0).(curUsername := NULL_USER, forceUpload := true)
  }

  /** A state change reported by the reader: the card became active (with
      the block read from it, if any), became idle, or anything else. */
  datatype CardEvent =
    | BecameActive(block: Option<seq<byte>>)
    | BecameIdle(wasAtLeastActive: bool)
    | OtherChange

  predicate WellFormedCardEvent(e: CardEvent)
  {
    e.BecameActive? && e.block.Some? ==> |e.block.value| == BLOCK_SIZE
  }

  /** `on_rfid_card_state_changed`. */
  function CardStateChanged(s: State, e: CardEvent): State
    requires WellFormedCardEvent(e)
  {
    match e
    case BecameActive(block) => CardPresent(s, block)
    case BecameIdle(wasAtLeastActive) => if wasAtLeastActive then CardRemoved(s) else s
    case OtherChange => s
  }

  // ---------------------------------------------------------------------
  // Sampling loop: detection and automatic control

  /** The automatic control block of the sampling loop. */
  function AutoControl(s: State): State
  {
    if s.powerStatus == 1 && !s.emergencyMode then
      var light := s.readings.lightIntensity < THRESHOLD_LIGHT_AUTO_ON;
      var relay := s.readings.smokeScope > THRESHOLD_SMOKE_AUTO_ON;
      s.(lightStatus := if light then 1 else 0, relayNum1Status := if relay then 1 else 0,
         pins := s.pins.(light := light, relay1 := relay))
    else s
  }

  /** The outcome of one detector run on the state. */
  datatype Outcome = Outcome(state: State, alert: AlertType, published: seq<Publication>)

  /** The warning events of the fired rules, in order. */
  function WarningEvents(fired: seq<Rule>, r: Readings): (ps: seq<Publication>)
    ensures |ps| == |fired|
    ensures forall i :: 0 <= i < |fired| ==>
              ps[i] == AlertEvent(fired[i].alert, Value(r, fired[i].sensor), fired[i].Threshold(), false)
  {
    if fired == [] then []
    else [AlertEvent(fired[0].alert, Value(r, fired[0].sensor), fired[0].Threshold(), false)]
         + WarningEvents(fired[1..], r)
  }

  /** `detect_sensor_anomalies` applied to the state: an emergency powers
      off and latches (publishing the power-off event and the emergency
      alert), a warning raises the force-upload flag (publishing one alert
      per breached rule). Nothing is published while MQTT is disconnected. */
  function DetectStep(s: State, connected: bool): Outcome
  {
    var d := Detect(s.emergencyMode, s.readings);
    if d.lockout && |d.fired| == 1 then
      var e := d.fired[0];
      var v := Value(s.readings, e.sensor);
      var off := EmergencyPowerOff(s, Breach(e.alert, v, e.Threshold()), connected);
      Outcome(off.0, d.alert, off.1 + if connected then [AlertEvent(e.alert, v, e.Threshold(), true)] else [])
    else
      Outcome(s.(forceUpload := s.forceUpload || d.raisesForce), d.alert,
              if connected then WarningEvents(d.fired, s.readings) else [])
  }

  // =====================================================================
  // Properties

  /** The initial state is consistent: user "null", everything off and in
      agreement with the pins, no lockout, and readings that trigger nothing. */
  lemma InitialIsQuiet()
    ensures Valid(Initial()) && OutputsOff(Initial()) && PinsAgree(Initial()) && LockoutHolds(Initial())
    ensures Initial().curUsername == NULL_USER && Initial().workstationCode == ""
    ensures !Initial().emergencyMode && !Initial().forceUpload && !Initial().cardPresent
    ensures DetectStep(Initial(), true) == Outcome(Initial(), AlertNone, [])
  {
    UnsampledReadingsAreQuiet();
  }

  /** `control_all_relays(0)` turns every output off in the record and on the
      pins and changes nothing else. */
  lemma ControlAllRelaysOff(s: State)
    ensures var t := ControlAllRelays(s, 0);
            && OutputsOff(t) && PinsAgree(t)
            && t.(powerStatus := s.powerStatus, lightStatus := s.lightStatus,
                  relayNum1Status := s.relayNum1Status, relayNum2Status := s.relayNum2Status,
                  pins := s.pins) == s
  {
  }

  /** `emergency_power_off` establishes the lockout with every output off,
      leaves the user name, the force-upload flag and the card flag as they
      were, and publishes one event naming the current user exactly when
      connected. */
  lemma EmergencyPowerOffLocksOut(s: State, reason: Reason, connected: bool)
    ensures var (t, ps) := EmergencyPowerOff(s, reason, connected);
            && t.emergencyMode && OutputsOff(t) && LockoutHolds(t) && PinsAgree(t)
            && t.curUsername == s.curUsername && t.forceUpload == s.forceUpload
            && t.cardPresent == s.cardPresent && t.readings == s.readings
            && (ps != [] <==> connected)
            && (connected ==> ps == [EmergencyPowerOffEvent(reason, s.curUsername)])
  {
  }

  /** While latched, detection changes nothing and publishes nothing. */
  lemma DetectStepLatched(s: State, connected: bool)
    requires s.emergencyMode
    ensures DetectStep(s, connected) == Outcome(s, AlertNone, [])
  {
  }

  /** An emergency breach (when not latched) powers everything off, latches
      the lockout, leaves the user and the force-upload flag alone, returns
      an emergency-band alert and, when connected, publishes the power-off
      event followed by the emergency alert for the same rule. */
  lemma DetectStepEmergency(s: State, connected: bool)
    requires !s.emergencyMode && AnyEmergencyBreach(s.readings)
    ensures var o := DetectStep(s, connected);
            && IsEmergencyAlert(o.alert) && InEmergencyCodeRange(o.alert)
            && o.state.emergencyMode && OutputsOff(o.state) && PinsAgree(o.state)
            && o.state.curUsername == s.curUsername && o.state.forceUpload == s.forceUpload
            && o.state.readings == s.readings
            && |o.published| == (if connected then 2 else 0)
            && (connected ==> o.published[0].EmergencyPowerOffEvent?
                              && o.published[0].reason.alert == o.alert
                              && o.published[0].username == s.curUsername
                              && o.published[1].AlertEvent? && o.published[1].emergency
                              && o.published[1].alert == o.alert)
  {
    EmergencyFirstBreachWins(s.readings);
    EmergencyBandIsContiguous(Detect(false, s.readings).alert);
  }

  /** Without a breach of the emergency band, detection changes only the
      force-upload flag, which it raises exactly when some warning rule
      fires; the alert is a warning or none, and when connected one
      non-emergency alert is published per warning rule that fires. */
  lemma DetectStepWarning(s: State, connected: bool)
    requires !s.emergencyMode && !AnyEmergencyBreach(s.readings)
    ensures var o := DetectStep(s, connected);
            && o.state == s.(forceUpload := o.state.forceUpload)
            && (o.state.forceUpload <==>
                  (s.forceUpload || exists j :: 0 <= j < |WARNING_RULES| && Fires(WARNING_RULES[j], s.readings)))
            && (o.alert == AlertNone || IsWarningAlert(o.alert)) && o.alert != FireWarning
            && (!connected ==> o.published == [])
            && (forall p :: p in o.published ==>
                  p.AlertEvent? && !p.emergency && p.alert != FireWarning
                  && exists x :: x in WARNING_RULES && Fires(x, s.readings) && p.alert == x.alert)
  {
    var r := s.readings;
    WarningAllApply(r);
    WarningFirstReturned(r);
    var o := DetectStep(s, connected);
    var d := Detect(false, r);
    forall p | p in o.published
      ensures p.AlertEvent? && !p.emergency && p.alert != FireWarning
      ensures exists x :: x in WARNING_RULES && Fires(x, r) && p.alert == x.alert
    {
      var i :| 0 <= i < |o.published| && o.published[i] == p;
      assert d.fired[i] in d.fired;
      assert !Fires(WARNING_RULES[0], r);
    }
  }

  /** Detection keeps the lockout property and the agreement of the pins
      with the record. */
  lemma DetectStepKeepsInvariants(s: State, connected: bool)
    ensures LockoutHolds(s) ==> LockoutHolds(DetectStep(s, connected).state)
    ensures PinsAgree(s) ==> PinsAgree(DetectStep(s, connected).state)
    ensures Valid(s) ==> Valid(DetectStep(s, connected).state)
  {
    if s.emergencyMode {
      DetectStepLatched(s, connected);
    } else if AnyEmergencyBreach(s.readings) {
      DetectStepEmergency(s, connected);
    } else {
      DetectStepWarning(s, connected);
    }
  }

  /** Light and relay requests: a status other than 0 or 1 is refused with
      no change; during the lockout the request is blocked with no change;
      otherwise exactly that output is set to the status (record and pin),
      the force-upload flag is raised, and the power state plays no part. */
  lemma OutputRequestOutcome(s: State, o: Output, status: int)
    ensures var (t, res) := OutputRequest(s, o, status);
            && (res == InvalidStatus <==> status != 0 && status != 1)
            && (res == Blocked <==> (status == 0 || status == 1) && s.emergencyMode)
            && (res != Success ==> t == s)
            && (res == Success ==>
                  OutputStatus(t, o) == status && OutputPin(t.pins, o) == (status == 1) && t.forceUpload
                  && (forall q :: q != o ==> OutputStatus(t, q) == OutputStatus(s, q)
                                              && OutputPin(t.pins, q) == OutputPin(s.pins, q))
                  && t.powerStatus == s.powerStatus && t.pins.power == s.pins.power
                  && t.curUsername == s.curUsername && !t.emergencyMode)
  {
  }

  /** Light and relay requests can never break the lockout, and keep the
      pins in agreement with the record. */
  lemma OutputRequestKeepsInvariants(s: State, o: Output, status: int)
    ensures LockoutHolds(s) ==> LockoutHolds(OutputRequest(s, o, status).0)
    ensures PinsAgree(s) ==> PinsAgree(OutputRequest(s, o, status).0)
  {
  }

  /** Power requests: 1 clears the lockout, makes "null" the administrator
      and switches the power on; 0 switches everything off and makes the
      user "null" whoever it was; both raise the force-upload flag; any
      other status changes nothing. */
  lemma PowerRequestOutcome(s: State, status: int)
    ensures var (t, res) := PowerRequest(s, status);
            && (res == InvalidStatus <==> status != 0 && status != 1)
            && (res == InvalidStatus ==> t == s)
            && res != Blocked
            && (status == 1 ==>
                  !t.emergencyMode && t.powerStatus == 1 && t.pins.power && t.forceUpload
                  && t.curUsername == (if s.curUsername == NULL_USER then ADMIN_USER else s.curUsername)
                  && t.lightStatus == s.lightStatus && t.relayNum1Status == s.relayNum1Status
                  && t.relayNum2Status == s.relayNum2Status)
            && (status == 0 ==>
                  OutputsOff(t) && t.curUsername == NULL_USER && t.forceUpload
                  && t.emergencyMode == s.emergencyMode)
  {
  }

  /** The MQTT power step: 1 behaves like the HTTP power-on without raising
      the flag; anything else (a malformed value too) switches everything
      off and resets the user to "null" only when it is the administrator. */
  lemma MqttPowerOutcome(s: State, v: int)
    ensures var t := MqttPower(s, v);
            && t.forceUpload == s.forceUpload && t.cardPresent == s.cardPresent
            && (v == 1 ==>
                  !t.emergencyMode && t.powerStatus == 1 && t.pins.power
                  && t.curUsername == (if s.curUsername == NULL_USER then ADMIN_USER else s.curUsername))
            && (v != 1 ==>
                  OutputsOff(t) && t.emergencyMode == s.emergencyMode
                  && t.curUsername == (if s.curUsername == ADMIN_USER then NULL_USER else s.curUsername))
  {
  }

  /** The two power-off paths disagree on the user: a card user stays
      logged in after an MQTT power-off but not after an HTTP one. */
  lemma PowerOffUsernameDiffers(s: State, v: int)
    requires s.curUsername != NULL_USER && s.curUsername != ADMIN_USER && v != 1
    ensures PowerRequest(s, 0).0.curUsername == NULL_USER
    ensures MqttPower(s, v).curUsername == s.curUsername
    ensures OutputsOff(PowerRequest(s, 0).0) && OutputsOff(MqttPower(s, v))
  {
  }

  /** One output step of a command changes that output only. */
  lemma MqttOutputFrame(s: State, d: string, key: string, o: Output)
    ensures var t := MqttOutput(s, d, key, o);
            t == s.(lightStatus := t.lightStatus, relayNum1Status := t.relayNum1Status,
                    relayNum2Status := t.relayNum2Status, pins := s.pins.(light := t.pins.light,
                    relay1 := t.pins.relay1, relay2 := t.pins.relay2))
  {
  }

  /** Messages on other topics are ignored; no MQTT command raises the
      force-upload flag or touches the card flag or the readings, and the
      user name keeps fitting its buffer. */
  lemma MqttCommandFrame(s: State, topic: string, data: string)
    ensures !Contains(topic, "property/set") ==> MqttCommand(s, topic, data) == s
    ensures var t := MqttCommand(s, topic, data);
            t.forceUpload == s.forceUpload && t.cardPresent == s.cardPresent
            && t.readings == s.readings && t.workstationCode == s.workstationCode
            && (Valid(s) ==> Valid(t))
  {
    if Contains(topic, "property/set") {
      var d := CString(data);
      var s1 := MqttOutput(s, d, "LightStatus", Light);
      MqttOutputFrame(s, d, "LightStatus", Light);
      var s2 := if Contains(d, Quoted("PowerStatus")) then MqttPower(s1, JsonValue(d, "PowerStatus")) else s1;
      var s3 := MqttOutput(s2, d, "RelayNum1Status", Relay1);
      MqttOutputFrame(s2, d, "RelayNum1Status", Relay1);
      MqttOutputFrame(s3, d, "RelayNum2Status", Relay2);
      assert MqttCommand(s, topic, data) == MqttOutput(s3, d, "RelayNum2Status", Relay2);
    }
  }

  /** Keys are applied in order, so a power-off (any `PowerStatus` other
      than 1) overrides a light setting in the same message. */
  lemma MqttPowerOffOverridesLight(s: State, topic: string, data: string)
    requires Contains(topic, "property/set")
    requires Contains(CString(data), Quoted("PowerStatus")) && JsonValue(CString(data), "PowerStatus") != 1
    ensures MqttCommand(s, topic, data).lightStatus == 0
    ensures !MqttCommand(s, topic, data).pins.light
    ensures MqttCommand(s, topic, data).powerStatus == 0
  {
    var d := CString(data);
    var s1 := MqttOutput(s, d, "LightStatus", Light);
    var s2 := MqttPower(s1, JsonValue(d, "PowerStatus"));
    assert s2.lightStatus == 0 && !s2.pins.light && s2.powerStatus == 0;
    var s3 := MqttOutput(s2, d, "RelayNum1Status", Relay1);
    MqttOutputFrame(s2, d, "RelayNum1Status", Relay1);
    MqttOutputFrame(s3, d, "RelayNum2Status", Relay2);
    assert MqttCommand(s, topic, data) == MqttOutput(s3, d, "RelayNum2Status", Relay2);
  }

  /** A command naming only the light key acts as the light step alone. */
  lemma MqttLightOnly(s: State, topic: string, data: string)
    requires Contains(topic, "property/set")
    requires !Contains(CString(data), Quoted("PowerStatus"))
    requires !Contains(CString(data), Quoted("RelayNum1Status"))
    requires !Contains(CString(data), Quoted("RelayNum2Status"))
    ensures MqttCommand(s, topic, data) == MqttOutput(s, CString(data), "LightStatus", Light)
  {
  }

  /** A command naming only the power key acts as the power step alone. */
  lemma MqttPowerOnly(s: State, topic: string, data: string)
    requires Contains(topic, "property/set")
    requires Contains(CString(data), Quoted("PowerStatus"))
    requires !Contains(CString(data), Quoted("LightStatus"))
    requires !Contains(CString(data), Quoted("RelayNum1Status"))
    requires !Contains(CString(data), Quoted("RelayNum2Status"))
    ensures MqttCommand(s, topic, data) == MqttPower(s, JsonValue(CString(data), "PowerStatus"))
  {
  }

  /** The message `{"LightStatus":"on"}` names the light key with a value
      that is not a number. */
  lemma LightOnMessage(data: string)
    requires data == "{" + Pattern("LightStatus") + "\"on\"}"
    ensures CString(data) == data
    ensures Contains(data, Quoted("LightStatus")) && JsonValue(data, "LightStatus") == -1
  {
    NoNulIsWhole(data);
    NotNumberAfterBrace("LightStatus", "\"on\"}");
  }

  /** The message `{"PowerStatus":"1"}` names the power key with a value
      that is not a number. */
  lemma QuotedPowerMessage(data: string)
    requires data == "{" + Pattern("PowerStatus") + "\"1\"}"
    ensures CString(data) == data
    ensures Contains(data, Quoted("PowerStatus")) && JsonValue(data, "PowerStatus") == -1
  {
    NoNulIsWhole(data);
    NotNumberAfterBrace("PowerStatus", "\"1\"}");
  }

  /** The key that names an output in a command. */
  function KeyName(o: Output): string
  {
    match o
    case Light => "LightStatus"
    case Relay1 => "RelayNum1Status"
    case Relay2 => "RelayNum2Status"
  }

  /** One output step sets its output, in the record and on the pin, to the
      extracted value when the quoted key is present, and leaves the other
      outputs, the power and the lockout alone. */
  lemma MqttOutputStep(s: State, d: string, o: Output)
    ensures var t := MqttOutput(s, d, KeyName(o), o);
            var present := Contains(d, Quoted(KeyName(o)));
            && OutputStatus(t, o) == (if present then JsonValue(d, KeyName(o)) else OutputStatus(s, o))
            && OutputPin(t.pins, o) == (if present then JsonValue(d, KeyName(o)) != 0 else OutputPin(s.pins, o))
            && (forall q :: q != o ==> OutputStatus(t, q) == OutputStatus(s, q)
                                        && OutputPin(t.pins, q) == OutputPin(s.pins, q))
            && t.emergencyMode == s.emergencyMode && t.powerStatus == s.powerStatus && t.pins.power == s.pins.power
  {
  }

  /** The light and relay keys have no lockout check: during the lockout, a
      command without a power key sets every output it names to the
      extracted value, in the record and on the pin, and leaves the lockout
      latched; a nonzero value breaks the lockout. */
  lemma MqttOutputIgnoresLockout(s: State, topic: string, data: string, o: Output)
    requires s.emergencyMode && Contains(topic, "property/set")
    requires !Contains(CString(data), Quoted("PowerStatus"))
    requires Contains(CString(data), Quoted(KeyName(o)))
    ensures var t := MqttCommand(s, topic, data);
            var v := JsonValue(CString(data), KeyName(o));
            && t.emergencyMode && OutputStatus(t, o) == v && OutputPin(t.pins, o) == (v != 0)
            && (v != 0 ==> !LockoutHolds(t))
  {
    var d := CString(data);
    var s1 := MqttOutput(s, d, KeyName(Light), Light);
    var s3 := MqttOutput(s1, d, KeyName(Relay1), Relay1);
    var t := MqttOutput(s3, d, KeyName(Relay2), Relay2);
    assert MqttCommand(s, topic, data) == t;
    MqttOutputStep(s, d, Light);
    MqttOutputStep(s1, d, Relay1);
    MqttOutputStep(s3, d, Relay2);
  }

  /** The message `{"key":1}` for an output's key names that key with the
      value 1 and holds no power key. */
  lemma SwitchOnMessage(o: Output, data: string)
    requires data == "{" + Pattern(KeyName(o)) + "1}"
    ensures CString(data) == data
    ensures Contains(data, Quoted(KeyName(o))) && JsonValue(data, KeyName(o)) == 1
    ensures !Contains(data, Quoted("PowerStatus"))
  {
    var key := KeyName(o);
    assert '\0' !in key && 'P' !in key by {
      match o
      case Light =>
      case Relay1 =>
      case Relay2 =>
    }
    CharOutsideMessage(key, "1}", '\0');
    NoNulIsWhole(data);
    OneAfterBrace(key);
    OtherKeyAbsent(key, "1}", "PowerStatus", 'P');
  }

  /** `"{" + Pattern(key) + "1}"` reads as 1 for `key`, and the quoted key is
      present. */
  lemma OneAfterBrace(key: string)
    ensures JsonValue("{" + Pattern(key) + "1}", key) == 1
    ensures Contains("{" + Pattern(key) + "1}", Quoted(key))
  {
    assert FirstAfter("{", Pattern(key)) by {
      assert ("{" + Pattern(key))[0] == '{';
    }
    JsonValueOfDigits("{", key, "", "1", "}");
    assert "{" + Pattern(key) + "" + "1" + "}" == "{" + Pattern(key) + "1}";
    QuotedKeyAfterBrace(key, "1}");
  }

  /** The quoted key is present in `"{" + Pattern(key) + tail`. */
  lemma QuotedKeyAfterBrace(key: string, tail: string)
    ensures Contains("{" + Pattern(key) + tail, Quoted(key))
  {
    var data := "{" + Pattern(key) + tail;
    assert data[1..1 + |Quoted(key)|] == Quoted(key);
    OccursContains(data, Quoted(key), 1);
  }

  /** During the lockout, `{"LightStatus":1}`, `{"RelayNum1Status":1}` or
      `{"RelayNum2Status":1}` switches that output on, in the record and on
      its pin, with the lockout still latched. */
  lemma MqttSwitchOnBreaksLockout(s: State, topic: string, data: string, o: Output)
    requires s.emergencyMode && Contains(topic, "property/set")
    requires data == "{" + Pattern(KeyName(o)) + "1}"
    ensures var t := MqttCommand(s, topic, data);
            OutputStatus(t, o) == 1 && OutputPin(t.pins, o) && t.emergencyMode && !LockoutHolds(t)
  {
    SwitchOnMessage(o, data);
    MqttOutputIgnoresLockout(s, topic, data, o);
  }

  /** The MQTT light path has no lockout check and stores what extraction
      returns: `{"LightStatus":"on"}` during the lockout stores -1, drives
      the light pin high and leaves the lockout latched, breaking it. */
  lemma MqttLightBreaksLockout(s: State, topic: string, data: string)
    requires LockoutHolds(s) && s.emergencyMode && Contains(topic, "property/set")
    requires data == "{" + Pattern("LightStatus") + "\"on\"}"
    ensures var t := MqttCommand(s, topic, data);
            t.lightStatus == -1 && t.pins.light && t.emergencyMode && !LockoutHolds(t)
  {
    LightOnMessage(data);
    OtherKeyAbsent("LightStatus", "\"on\"}", "PowerStatus", 'P');
    OtherKeyAbsent("LightStatus", "\"on\"}", "RelayNum1Status", 'R');
    OtherKeyAbsent("LightStatus", "\"on\"}", "RelayNum2Status", 'R');
    MqttLightOnly(s, topic, data);
  }

  /** A quoted number is not a number: `{"PowerStatus":"1"}` switches the
      workstation off. */
  lemma MqttQuotedPowerSwitchesOff(s: State, topic: string, data: string)
    requires Contains(topic, "property/set")
    requires data == "{" + Pattern("PowerStatus") + "\"1\"}"
    ensures OutputsOff(MqttCommand(s, topic, data))
  {
    QuotedPowerMessage(data);
    OtherKeyAbsent("PowerStatus", "\"1\"}", "LightStatus", 'L');
    OtherKeyAbsent("PowerStatus", "\"1\"}", "RelayNum1Status", 'R');
    OtherKeyAbsent("PowerStatus", "\"1\"}", "RelayNum2Status", 'R');
    MqttPowerOnly(s, topic, data);
  }

  /** `"{" + Pattern(key) + tail`, with `tail` opening a quoted string,
      reads as -1 for `key`, and the quoted key is present. */
  lemma NotNumberAfterBrace(key: string, tail: string)
    requires |tail| >= 1 && tail[0] == '"'
    ensures JsonValue("{" + Pattern(key) + tail, key) == -1
    ensures Contains("{" + Pattern(key) + tail, Quoted(key))
  {
    assert FirstAfter("{", Pattern(key)) by {
      assert ("{" + Pattern(key))[0] == '{';
    }
    JsonValueNotNumber("{", key, "", '"', tail[1..]);
    assert "{" + Pattern(key) + "" + ['"'] + tail[1..] == "{" + Pattern(key) + tail;
  }

  /** A character that is neither punctuation nor part of the key or of the
      text after the colon is not in the message `{"key":tail`. */
  lemma CharOutsideMessage(key: string, tail: string, c: char)
    requires c != '{' && c != '"' && c != ':' && c !in key && c !in tail
    ensures c !in "{" + Pattern(key) + tail
  {
  }

  /** The message `{"key":tail` does not name a key `other` that holds a
      character missing from `key`, from `tail` and from the punctuation. */
  lemma OtherKeyAbsent(key: string, tail: string, other: string, c: char)
    requires c in other && c != '{' && c != '"' && c != ':' && c !in key && c !in tail
    ensures !Contains("{" + Pattern(key) + tail, Quoted(other))
  {
    CharOutsideMessage(key, tail, c);
    AbsentChar("{" + Pattern(key) + tail, Quoted(other), c);
  }

  /** A message without NUL is its own C string. */
  lemma NoNulIsWhole(data: string)
    requires forall j :: 0 <= j < |data| ==> data[j] != '\0'
    ensures CString(data) == data
  {
    CStringAt(data, |data|);
  }

  /** A needle holding a character the text lacks does not occur in it. */
  lemma AbsentChar(hay: string, needle: string, c: char)
    requires c in needle && c !in hay
    ensures !Contains(hay, needle)
  {
    var k :| 0 <= k < |needle| && needle[k] == c;
    forall j: nat
      ensures !OccursAt(hay, needle, j)
    {
      if j + |needle| <= |hay| {
        assert hay[j..j + |needle|][k] == hay[j + k] != c;
      }
    }
  }

  /** The card-present branch: the card flag, power (record and pin, with
      the other pins low), the user taken from the card and the force-upload
      flag; the light and relay fields and the lockout are left as they were. */
  lemma CardPresentOutcome(s: State, block: seq<byte>)
    requires |block| == BLOCK_SIZE
    ensures var t := CardPresent(s, Some(block));
            && t.cardPresent && t.powerStatus == 1 && t.pins == Pins(true, false, false, false)
            && t.curUsername == CardUsername(block) && Valid(t) && t.forceUpload
            && t.lightStatus == s.lightStatus && t.relayNum1Status == s.relayNum1Status
            && t.relayNum2Status == s.relayNum2Status && t.emergencyMode == s.emergencyMode
    ensures CardPresent(s, None) == s
  {
  }

  /** Presenting a card during the lockout switches the power on while the
      lockout stays latched. */
  lemma CardPresentBreaksLockout(s: State, block: seq<byte>)
    requires |block| == BLOCK_SIZE && s.emergencyMode
    ensures CardPresent(s, Some(block)).emergencyMode
    ensures !LockoutHolds(CardPresent(s, Some(block)))
  {
  }

  /** `enable_power_only` leaves a light or relay that was on marked on in
      the record while its pin goes low. */
  lemma EnablePowerOnlyDesynchronises(s: State)
    requires s.lightStatus != 0 || s.relayNum1Status != 0 || s.relayNum2Status != 0
    ensures !PinsAgree(EnablePowerOnly(s))
    ensures EnablePowerOnly(s).lightStatus == s.lightStatus
    ensures EnablePowerOnly(s).powerStatus == 1 && EnablePowerOnly(s).pins.power
  {
  }

  /** `remote_power_control(1)` never records the power as on: from a
      powered-off record the power pin is high while `powerStatus` stays 0. */
  lemma RemotePowerControlSkipsStatus(s: State, enable: int)
    requires 0 <= enable < 256
    ensures enable != 0 ==> var t := RemotePowerControl(s, enable);
              t.powerStatus == s.powerStatus && t.pins.power && !t.emergencyMode && t.lightStatus == 0
              && (s.powerStatus == 0 ==> !PinsAgree(t))
    ensures enable == 0 ==> OutputsOff(RemotePowerControl(s, enable))
  {
  }

  /** The card-removed branch: card flag cleared, every output off, user
      "null", force-upload raised; the lockout is left as it was. */
  lemma CardRemovedOutcome(s: State)
    ensures var t := CardRemoved(s);
            && !t.cardPresent && OutputsOff(t) && PinsAgree(t) && LockoutHolds(t)
            && t.curUsername == NULL_USER && t.forceUpload && t.emergencyMode == s.emergencyMode
  {
  }

  /** Removing a card and presenting another leaves only the power on, in
      agreement with the pins, for the new card's user. */
  lemma CardSwap(s: State, block: seq<byte>)
    requires |block| == BLOCK_SIZE
    ensures var t := CardPresent(CardRemoved(s), Some(block));
            && t.powerStatus == 1 && t.lightStatus == 0 && t.relayNum1Status == 0 && t.relayNum2Status == 0
            && PinsAgree(t) && t.cardPresent && t.curUsername == CardUsername(block)
  {
  }

  /** Automatic control acts only when powered and not latched, then sets
      the light from the light level and relay 1 from the smoke level and
      touches nothing else; running it twice is running it once; it keeps
      the lockout property and the agreement of the pins. */
  lemma AutoControlOutcome(s: State)
    ensures var t := AutoControl(s);
            && (s.powerStatus == 1 && !s.emergencyMode ==>
                  (t.lightStatus == 1 <==> s.readings.lightIntensity < THRESHOLD_LIGHT_AUTO_ON)
                  && (t.relayNum1Status == 1 <==> s.readings.smokeScope > THRESHOLD_SMOKE_AUTO_ON)
                  && (t.lightStatus == 0 || t.lightStatus == 1)
                  && (t.relayNum1Status == 0 || t.relayNum1Status == 1)
                  && t.pins.light == (t.lightStatus == 1) && t.pins.relay1 == (t.relayNum1Status == 1))
            && (!(s.powerStatus == 1 && !s.emergencyMode) ==> t == s)
            && t == s.(lightStatus := t.lightStatus, relayNum1Status := t.relayNum1Status,
                       pins := s.pins.(light := t.pins.light, relay1 := t.pins.relay1))
            && AutoControl(t) == t
            && (LockoutHolds(s) ==> LockoutHolds(t))
            && (PinsAgree(s) ==> PinsAgree(t))
  {
  }

  /** Every command handler keeps the user name within its buffer. */
  lemma UsernameFitsAfterCommands(s: State, o: Output, status: int, v: int, connected: bool, reason: Reason)
    requires Valid(s)
    ensures Valid(ControlAllRelays(s, 0)) && Valid(EmergencyPowerOff(s, reason, connected).0)
    ensures Valid(EnablePowerOnly(s)) && Valid(RemotePowerControl(s, 1))
    ensures Valid(PowerRequest(s, status).0) && Valid(OutputRequest(s, o, status).0)
    ensures Valid(MqttPower(s, v))
  {
  }

  /** Card events, the automatic control and detection keep the user name
      within its buffer. */
  lemma UsernameFitsAfterEvents(s: State, e: CardEvent, connected: bool)
    requires Valid(s) && WellFormedCardEvent(e)
    ensures Valid(CardStateChanged(s, e)) && Valid(AutoControl(s))
    ensures Valid(DetectStep(s, connected).state)
  {
    DetectStepKeepsInvariants(s, connected);
  }
}
