/** The workstation record of main/main.c updated in place: the fields of
    `g_CurrentWorkStaStatus`, the three flags and the four actuator pin
    levels, with one method per mutator of the firmware. Each method is
    proved to leave the record in the state the matching function of the
    `Station` module computes, so the properties proved there hold of it. */
module Workstation {
  import opened Config
  import opened JsonScan
  import opened Card
  import opened Anomaly
  import S = Station

  class Workstation {
    var workstationCode: string
    var curUsername: string
    var powerStatus: int
    var lightStatus: int
    var relayNum1Status: int
    var relayNum2Status: int
    /** The six calibrated readings of the record. */
    var readings: Readings
    /** `gTag_emergencyMode`, `gFlag_forceUpload`, `gTag_cardPresent`. */
    var emergencyMode: bool
    var forceUpload: bool
    var cardPresent: bool
    /** The levels last driven on the power, light, relay 1 and relay 2 pins. */
    var pins: S.Pins

    /** The record as a value. */
    function Snapshot(): S.State
      reads this
    {
      S.State(workstationCode, curUsername, powerStatus, lightStatus, relayNum1Status, relayNum2Status,
              readings, emergencyMode, forceUpload, cardPresent, pins)
    }

    /** `Init_Config`: pins low, then the record's initial values. */
    constructor ()
      ensures S.Valid(Snapshot()) && Snapshot() == S.Initial()
    {
      pins := S.ALL_PINS_LOW;
      workstationCode := "";
      curUsername := NULL_USER;
      powerStatus, lightStatus, relayNum1Status, relayNum2Status := 0, 0, 0, 0;
      readings := Readings(-1.0, -1.0, -1.0, 0.0, -1.0, -1.0);
      emergencyMode, forceUpload, cardPresent := false, false, false;
    }

    method ControlAllRelays(enable: int)
      requires 0 <= enable < 256
      modifies this
      ensures Snapshot() == S.ControlAllRelays(old(Snapshot()), enable)
    {
      pins := S.Pins(enable != 0, enable != 0, enable != 0, enable != 0);
      powerStatus := enable;
      relayNum1Status := enable;
      relayNum2Status := enable;
      lightStatus := enable;
    }

    method EmergencyPowerOff(reason: S.Reason, connected: bool) returns (published: seq<S.Publication>)
      modifies this
      ensures (Snapshot(), published) == S.EmergencyPowerOff(old(Snapshot()), reason, connected)
    {
      ControlAllRelays(0);
      emergencyMode := true;
      published := [];
      if connected {
        published := [S.EmergencyPowerOffEvent(reason, curUsername)];
      }
    }

    method EnablePowerOnly()
      modifies this
      ensures Snapshot() == S.EnablePowerOnly(old(Snapshot()))
    {
      pins := S.Pins(true, false, false, false);
      powerStatus := 1;
    }

    method RemotePowerControl(enable: int)
      requires 0 <= enable < 256
      modifies this
      ensures Snapshot() == S.RemotePowerControl(old(Snapshot()), enable)
    {
      if enable != 0 {
        if emergencyMode {
          emergencyMode := false;
        }
        pins := pins.(power := true, light := false);
        lightStatus := 0;
      } else {
        ControlAllRelays(0);
      }
    }

    /** `power_handler` after the query has been parsed into `status`. */
    method PowerHandler(status: int) returns (res: S.HttpOutcome)
      modifies this
      ensures (Snapshot(), res) == S.PowerRequest(old(Snapshot()), status)
    {
      if status != 0 && status != 1 {
        return S.InvalidStatus;
      }
      if status == 1 {
        if emergencyMode {
          emergencyMode := false;
        }
        if curUsername == NULL_USER {
          curUsername := ADMIN_USER;
        }
        pins := pins.(power := true);
        powerStatus := 1;
      } else {
        ControlAllRelays(0);
        curUsername := NULL_USER;
      }
      forceUpload := true;
      res := S.Success;
    }

    /** `light_handler` after the query has been parsed into `status`. */
    method LightHandler(status: int) returns (res: S.HttpOutcome)
      modifies this
      ensures (Snapshot(), res) == S.OutputRequest(old(Snapshot()), S.Light, status)
    {
      if status != 0 && status != 1 {
        return S.InvalidStatus;
      }
      if emergencyMode {
        return S.Blocked;
      }
      pins := pins.(light := status != 0);
      lightStatus := status;
      forceUpload := true;
      res := S.Success;
    }

    /** `relay1_handler` after the query has been parsed into `status`. */
    method Relay1Handler(status: int) returns (res: S.HttpOutcome)
      modifies this
      ensures (Snapshot(), res) == S.OutputRequest(old(Snapshot()), S.Relay1, status)
    {
      if status != 0 && status != 1 {
        return S.InvalidStatus;
      }
      if emergencyMode {
        return S.Blocked;
      }
      pins := pins.(relay1 := status != 0);
      relayNum1Status := status;
      forceUpload := true;
      res := S.Success;
    }

    /** `relay2_handler` after the query has been parsed into `status`. */
    method Relay2Handler(status: int) returns (res: S.HttpOutcome)
      modifies this
      ensures (Snapshot(), res) == S.OutputRequest(old(Snapshot()), S.Relay2, status)
    {
      if status != 0 && status != 1 {
        return S.InvalidStatus;
      }
      if emergencyMode {
        return S.Blocked;
      }
      pins := pins.(relay2 := status != 0);
      relayNum2Status := status;
      forceUpload := true;
      res := S.Success;
    }

    /** The `PowerStatus` step of a command. */
    method MqttPower(v: int)
      modifies this
      ensures Snapshot() == S.MqttPower(old(Snapshot()), v)
    {
      if v == 1 {
        if emergencyMode {
          emergencyMode := false;
        }
        if curUsername == NULL_USER {
          curUsername := ADMIN_USER;
        }
        pins := pins.(power := true);
        powerStatus := 1;
      } else {
        ControlAllRelays(0);
        if curUsername == ADMIN_USER {
          curUsername := NULL_USER;
        }
      }
    }

    /** One output key of a command: when the quoted key occurs in the
        message, the extracted value (possibly -1) is written to the pin and
        to the record. */
    method MqttOutput(d: string, key: string, o: S.Output)
      modifies this
      ensures Snapshot() == S.MqttOutput(old(Snapshot()), d, key, o)
    {
      if Contains(d, Quoted(key)) {
        var v := ExtractJsonValue(d, key);
        match o
        case Light =>
          pins := pins.(light := v != 0);
          lightStatus := v;
        case Relay1 =>
          pins := pins.(relay1 := v != 0);
          relayNum1Status := v;
        case Relay2 =>
          pins := pins.(relay2 := v != 0);
          relayNum2Status := v;
      }
    }

    /** The `MQTT_EVENT_DATA` branch for a message `data` on `topic`. */
    method MqttCommand(topic: string, data: string)
      modifies this
      ensures Snapshot() == S.MqttCommand(old(Snapshot()), topic, data)
    {
      if !Contains(topic, "property/set") {
        return;
      }
      var d := CString(data);
      MqttOutput(d, "LightStatus", S.Light);
      ghost var s1 := Snapshot();
      if Contains(d, Quoted("PowerStatus")) {
        var v := ExtractJsonValue(d, "PowerStatus");
        MqttPower(v);
      }
      assert Snapshot() == if Contains(d, Quoted("PowerStatus")) then S.MqttPower(s1, JsonValue(d, "PowerStatus")) else s1;
      MqttOutput(d, "RelayNum1Status", S.Relay1);
      MqttOutput(d, "RelayNum2Status", S.Relay2);
    }

    /** The card-present branch; `block` is `None` when the card type,
        the authentication or the read was refused. */
    method OnCardPresent(block: Option<seq<byte>>)
      requires block.Some? ==> |block.value| == BLOCK_SIZE
      modifies this
      ensures Snapshot() == S.CardPresent(old(Snapshot()), block)
    {
      if block.None? {
        return;
      }
      var name := ExtractCardUsername(block.value);
      cardPresent := true;
      EnablePowerOnly();
      curUsername := name;
      forceUpload := true;
    }

    /** The card-removed branch. */
    method OnCardRemoved()
      modifies this
      ensures Snapshot() == S.CardRemoved(old(Snapshot()))
    {
      cardPresent := false;
      ControlAllRelays(0);
      curUsername := NULL_USER;
      forceUpload := true;
    }

    /** `on_rfid_card_state_changed`. */
    method OnCardStateChanged(e: S.CardEvent)
      requires S.WellFormedCardEvent(e)
      modifies this
      ensures Snapshot() == S.CardStateChanged(old(Snapshot()), e)
    {
      match e
      case BecameActive(block) =>
        OnCardPresent(block);
      case BecameIdle(wasAtLeastActive) =>
        if wasAtLeastActive {
          OnCardRemoved();
        }
      case OtherChange =>
    }

    /** The calibrated readings of one sample, stored into the record. */
    method StoreReadings(r: Readings)
      modifies this
      ensures Snapshot() == old(Snapshot()).(readings := r)
    {
      readings := r;
    }

    /** The automatic control block of the sampling loop. */
    method AutoControl()
      modifies this
      ensures Snapshot() == S.AutoControl(old(Snapshot()))
    {
      if powerStatus == 1 && !emergencyMode {
        if readings.lightIntensity < THRESHOLD_LIGHT_AUTO_ON {
          pins := pins.(light := true);
          lightStatus := 1;
        } else {
          pins := pins.(light := false);
          lightStatus := 0;
        }
        if readings.smokeScope > THRESHOLD_SMOKE_AUTO_ON {
          pins := pins.(relay1 := true);
          relayNum1Status := 1;
        } else {
          pins := pins.(relay1 := false);
          relayNum1Status := 0;
        }
      }
    }

    /** An emergency rule that fires: power off for it and report it. */
    method EmergencyBreach(k: nat, connected: bool) returns (alert: AlertType, published: seq<S.Publication>)
      requires k < |EMERGENCY_RULES| && !emergencyMode
      requires Fires(EMERGENCY_RULES[k], readings)
      requires forall j :: 0 <= j < k ==> !Fires(EMERGENCY_RULES[j], readings)
      modifies this
      ensures var o := S.DetectStep(old(Snapshot()), connected);
              Snapshot() == o.state && alert == o.alert && published == o.published
    {
      FirstMatchIsEarliest(EMERGENCY_RULES, readings, k);
      var rule := EMERGENCY_RULES[k];
      var v := Value(readings, rule.sensor);
      published := EmergencyPowerOff(S.Breach(rule.alert, v, rule.Threshold()), connected);
      if connected {
        published := published + [S.AlertEvent(rule.alert, v, rule.Threshold(), true)];
      }
      alert := rule.alert;
    }

    /** The warning band of `detect_sensor_anomalies`, reached when no
        emergency rule fires: the six warning blocks run in order (fire,
        smoke, high and low temperature, high and low humidity). The flag is
        collected with the alert and the events and stored once at the end,
        since nothing reads it while the band runs. */
    method WarningBand(connected: bool) returns (alert: AlertType, published: seq<S.Publication>)
      modifies this
      ensures var b := WarnAll(WARNING_RULES, old(readings), connected, Band(AlertNone, [], old(forceUpload)));
              Snapshot() == old(Snapshot()).(forceUpload := b.force) && alert == b.alert && published == b.published
    {
      var r := readings;
      var b0 := Band(AlertNone, [], forceUpload);
      var b1 := WarnIfBreached(WARNING_RULES[0], r, connected, b0);
      var b2 := WarnIfBreached(WARNING_RULES[1], r, connected, b1);
      var b3 := WarnIfBreached(WARNING_RULES[2], r, connected, b2);
      var b4 := WarnIfBreached(WARNING_RULES[3], r, connected, b3);
      var b5 := WarnIfBreached(WARNING_RULES[4], r, connected, b4);
      var b6 := WarnIfBreached(WARNING_RULES[5], r, connected, b5);
      WarnAllSpelledOut(r, connected, b0, b1, b2, b3, b4, b5);
      alert, published := b6.alert, b6.published;
      forceUpload := b6.force;
    }

    /** `detect_sensor_anomalies` on the stored readings: nothing while
        latched, then the emergency rules in order, then the warning band. */
    method DetectSensorAnomalies(connected: bool) returns (alert: AlertType, published: seq<S.Publication>)
      modifies this
      ensures var o := S.DetectStep(old(Snapshot()), connected);
              Snapshot() == o.state && alert == o.alert && published == o.published
    {
      if emergencyMode {
        return AlertNone, [];
      }
      if readings.flameScope > THRESHOLD_FLAME_EMERGENCY {
        alert, published := EmergencyBreach(0, connected);
        return;
      }
      if readings.smokeScope > THRESHOLD_SMOKE_EMERGENCY {
        alert, published := EmergencyBreach(1, connected);
        return;
      }
      if readings.temperature > THRESHOLD_TEMP_EMERGENCY {
        alert, published := EmergencyBreach(2, connected);
        return;
      }
      if readings.heatScope > THRESHOLD_HEAT_EMERGENCY {
        alert, published := EmergencyBreach(3, connected);
        return;
      }
      NoMatchNoneFires(EMERGENCY_RULES, readings);
      WarningBandOutcome(Snapshot(), connected);
      alert, published := WarningBand(connected);
    }
  }

  /** What the warning band has produced so far: the alert it will return,
      the events it published and the force-upload flag. */
  datatype Band = Band(alert: AlertType, published: seq<S.Publication>, force: bool)

  /** One rule of the warning band on readings `r`. */
  function Warn(rule: Rule, r: Readings, connected: bool, b: Band): Band
  {
    if Fires(rule, r) then
      Band(if b.alert == AlertNone then rule.alert else b.alert,
           b.published + (if connected then [S.AlertEvent(rule.alert, Value(r, rule.sensor), rule.Threshold(), false)] else []),
           true)
    else b
  }

  /** One warning block: when the rule is breached, publish its event if
      connected, raise the flag, and take its alert unless one is set. */
  method WarnIfBreached(rule: Rule, r: Readings, connected: bool, b: Band) returns (b': Band)
    ensures b' == Warn(rule, r, connected, b)
  {
    b' := b;
    var v := Value(r, rule.sensor);
    var breached := match rule.test
      case Above(t) => v > t
      case BelowPositive(t) => v < t && v > 0.0;
    if breached {
      if connected {
        b' := b'.(published := b'.published + [S.AlertEvent(rule.alert, v, rule.Threshold(), false)]);
      }
      b' := b'.(force := true);
      if b'.alert == AlertNone {
        b' := b'.(alert := rule.alert);
      }
    }
  }

  /** The rules of a band applied one after the other. */
  function WarnAll(rules: seq<Rule>, r: Readings, connected: bool, b: Band): Band
  {
    if rules == [] then b else WarnAll(rules[1..], r, connected, Warn(rules[0], r, connected, b))
  }

  /** Running the rules one after the other reports exactly the matching rules
      in order, keeps the first alert, and raises the flag if any matched. */
  lemma {:induction false} WarnAllMatches(rules: seq<Rule>, r: Readings, connected: bool, b: Band)
    requires forall i :: 0 <= i < |rules| ==> rules[i].alert != AlertNone
    ensures var ms := Matches(rules, r);
            WarnAll(rules, r, connected, b).alert
            == if b.alert == AlertNone && ms != [] then ms[0].alert else b.alert
    ensures var ms := Matches(rules, r);
            WarnAll(rules, r, connected, b).published
            == b.published + if connected then S.WarningEvents(ms, r) else []
    ensures WarnAll(rules, r, connected, b).force == (b.force || Matches(rules, r) != [])
  {
    if rules != [] {
      var x := rules[0];
      var b' := Warn(x, r, connected, b);
      WarnAllMatches(rules[1..], r, connected, b');
      var rest := Matches(rules[1..], r);
      if Fires(x, r) {
        assert Matches(rules, r) == [x] + rest;
        if connected {
          var e := [S.AlertEvent(x.alert, Value(r, x.sensor), x.Threshold(), false)];
          WarningEventsCons(x, rest, r);
          assert b'.published == b.published + e;
          ConcatAssociates(b.published, e, S.WarningEvents(rest, r));
        }
      } else {
        assert Matches(rules, r) == rest;
      }
    }
  }

  /** The events of a non-empty list of rules: the first rule's event, then the rest. */
  lemma WarningEventsCons(x: Rule, rest: seq<Rule>, r: Readings)
    ensures S.WarningEvents([x] + rest, r)
            == [S.AlertEvent(x.alert, Value(r, x.sensor), x.Threshold(), false)] + S.WarningEvents(rest, r)
  {
    assert ([x] + rest)[1..] == rest;
  }

  /** Running the rules from `k` on is running rule `k`, then the rest. */
  lemma WarnAllStep(rules: seq<Rule>, k: nat, r: Readings, connected: bool, b: Band)
    requires k < |rules|
    ensures WarnAll(rules[k..], r, connected, b) == WarnAll(rules[k + 1..], r, connected, Warn(rules[k], r, connected, b))
  {
    assert rules[k..][1..] == rules[k + 1..];
  }

  /** The six warning rules in turn, through the intermediate results. */
  lemma WarnAllSpelledOut(r: Readings, connected: bool, b0: Band, b1: Band, b2: Band, b3: Band, b4: Band, b5: Band)
    requires b1 == Warn(WARNING_RULES[0], r, connected, b0)
    requires b2 == Warn(WARNING_RULES[1], r, connected, b1)
    requires b3 == Warn(WARNING_RULES[2], r, connected, b2)
    requires b4 == Warn(WARNING_RULES[3], r, connected, b3)
    requires b5 == Warn(WARNING_RULES[4], r, connected, b4)
    ensures WarnAll(WARNING_RULES, r, connected, b0) == Warn(WARNING_RULES[5], r, connected, b5)
  {
    var rs := WARNING_RULES;
    assert rs[0..] == rs;
    WarnAllStep(rs, 0, r, connected, b0);
    WarnAllStep(rs, 1, r, connected, b1);
    WarnAllStep(rs, 2, r, connected, b2);
    WarnAllStep(rs, 3, r, connected, b3);
    WarnAllStep(rs, 4, r, connected, b4);
    WarnAllStep(rs, 5, r, connected, b5);
    assert rs[6..] == [];
  }

  /** The warning outcome of `DetectStep` is the whole band run from an empty
      alert and no events. */
  lemma WarningBandOutcome(s: S.State, connected: bool)
    requires !s.emergencyMode && Matches(EMERGENCY_RULES, s.readings) == []
    ensures var b := WarnAll(WARNING_RULES, s.readings, connected, Band(AlertNone, [], s.forceUpload));
            S.DetectStep(s, connected) == S.Outcome(s.(forceUpload := b.force), b.alert, b.published)
  {
    WarnAllMatches(WARNING_RULES, s.readings, connected, Band(AlertNone, [], s.forceUpload));
  }
}
