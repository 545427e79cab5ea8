/** The anomaly detector of `detect_sensor_anomalies` (main/main.c), written
    as two ordered rule lists: the emergency band, where the first breach wins
    and triggers the lockout, and the warning band, where every breach takes
    effect but only the first is returned. */
module Anomaly {
  import opened Config

  /** The six calibrated readings of one sample; -1 means "not yet sampled". */
  datatype Readings = Readings(
    lightIntensity: real,
    smokeScope: real,
    flameScope: real,
    heatScope: real,
    humidity: real,
    temperature: real)

  datatype Sensor = Flame | Smoke | Temperature | Heat | Humidity

  function Value(r: Readings, s: Sensor): real
  {
    match s
    case Flame => r.flameScope
    case Smoke => r.smokeScope
    case Temperature => r.temperature
    case Heat => r.heatScope
    case Humidity => r.humidity
  }

  /** A rule's comparison: strictly above the threshold, or strictly below it
      while the reading is positive (so the -1 sentinel is ignored). */
  datatype Test = Above(threshold: real) | BelowPositive(threshold: real)

  datatype Rule = Rule(alert: AlertType, sensor: Sensor, test: Test)
  {
    function Threshold(): real
    {
      test.threshold
    }
  }

  predicate Fires(rule: Rule, r: Readings)
  {
    var v := Value(r, rule.sensor);
    match rule.test
    case Above(t) => v > t
    case BelowPositive(t) => v < t && v > 0.0
  }

  /** The emergency band, in precedence order. */
  const EMERGENCY_RULES: seq<Rule> := [
    Rule(FireEmergency, Flame, Above(THRESHOLD_FLAME_EMERGENCY)),
    Rule(SmokeEmergency, Smoke, Above(THRESHOLD_SMOKE_EMERGENCY)),
    Rule(TempEmergency, Temperature, Above(THRESHOLD_TEMP_EMERGENCY)),
    Rule(HeatEmergency, Heat, Above(THRESHOLD_HEAT_EMERGENCY))
  ]

  /** The warning band, in evaluation order. */
  const WARNING_RULES: seq<Rule> := [
    Rule(FireWarning, Flame, Above(THRESHOLD_FLAME_WARNING)),
    Rule(SmokeWarning, Smoke, Above(THRESHOLD_SMOKE_WARNING)),
    Rule(TempHighWarning, Temperature, Above(THRESHOLD_TEMP_HIGH)),
    Rule(TempLowWarning, Temperature, BelowPositive(THRESHOLD_TEMP_LOW)),
    Rule(HumidityHighWarning, Humidity, Above(THRESHOLD_HUMIDITY_HIGH)),
    Rule(HumidityLowWarning, Humidity, BelowPositive(THRESHOLD_HUMIDITY_LOW))
  ]

  /** The rules of `rules` that fire on `r`, in list order. */
  function Matches(rules: seq<Rule>, r: Readings): seq<Rule>
  {
    if rules == [] then []
    else (if Fires(rules[0], r) then [rules[0]] else []) + Matches(rules[1..], r)
  }

  /** Every match is a rule of the list that fires, and every rule of the
      list that fires is a match. */
  lemma {:induction false} MatchesExactlyFiring(rules: seq<Rule>, r: Readings)
    ensures forall x :: x in Matches(rules, r) <==> x in rules && Fires(x, r)
  {
    if rules != [] {
      MatchesExactlyFiring(rules[1..], r);
      assert forall x :: x in rules <==> x == rules[0] || x in rules[1..];
    }
  }

  /** The first match is the earliest rule of the list that fires: first
      match wins. */
  lemma {:induction false} FirstMatchIsEarliest(rules: seq<Rule>, r: Readings, i: nat)
    requires i < |rules| && Fires(rules[i], r)
    requires forall j :: 0 <= j < i ==> !Fires(rules[j], r)
    ensures Matches(rules, r) != [] && Matches(rules, r)[0] == rules[i]
  {
    if i > 0 {
      FirstMatchIsEarliest(rules[1..], r, i - 1);
    }
  }

  /** No match at all exactly when no rule of the list fires. */
  lemma {:induction false} NoMatchNoneFires(rules: seq<Rule>, r: Readings)
    ensures Matches(rules, r) == [] <==> forall j :: 0 <= j < |rules| ==> !Fires(rules[j], r)
  {
    if rules != [] {
      NoMatchNoneFires(rules[1..], r);
      assert forall j :: 1 <= j < |rules| ==> rules[j] == rules[1..][j - 1];
    }
  }

  /** One step of the evaluation: the matches from rule `k` on are rule `k`
      if it fires, followed by the matches from rule `k + 1` on. */
  lemma MatchesUnfold(rules: seq<Rule>, r: Readings, k: nat)
    requires k < |rules|
    ensures Matches(rules[k..], r)
            == (if Fires(rules[k], r) then [rules[k]] else []) + Matches(rules[k + 1..], r)
  {
    assert rules[k..][1..] == rules[k + 1..];
  }

  /** Outcome of one detector run: the alert returned, whether the lockout is
      entered, whether the force-upload flag is raised, and the rules whose
      alert is reported (in order). */
  datatype Detection = Detection(alert: AlertType, lockout: bool, raisesForce: bool, fired: seq<Rule>)

  /** `detect_sensor_anomalies` with `ENABLE_AUTO_POWER_OFF` set. */
  function Detect(emergencyMode: bool, r: Readings): Detection
  {
    if emergencyMode then Detection(AlertNone, false, false, [])
    else
      var em := Matches(EMERGENCY_RULES, r);
      if em != [] then Detection(em[0].alert, true, false, [em[0]])
      else
        var ws := Matches(WARNING_RULES, r);
        Detection(if ws == [] then AlertNone else ws[0].alert, false, ws != [], ws)
  }

  predicate AnyEmergencyBreach(r: Readings)
  {
    r.flameScope > THRESHOLD_FLAME_EMERGENCY || r.smokeScope > THRESHOLD_SMOKE_EMERGENCY
    || r.temperature > THRESHOLD_TEMP_EMERGENCY || r.heatScope > THRESHOLD_HEAT_EMERGENCY
  }

  /** Latched: while `emergencyMode` is set the detector returns
      `ALERT_NONE`, enters no lockout, raises no flag and reports nothing. */
  lemma DetectWhileLatched(r: Readings)
    ensures Detect(true, r) == Detection(AlertNone, false, false, [])
  {
  }

  /** Emergency band: the lockout is entered exactly when some emergency
      threshold is breached; then the alert is the first breach in the order
      flame, smoke, temperature, heat, it alone is reported, and the warning
      band is skipped (no force-upload). */
  lemma EmergencyFirstBreachWins(r: Readings)
    ensures var d := Detect(false, r);
            && (d.lockout <==> AnyEmergencyBreach(r))
            && (d.lockout ==> !d.raisesForce && |d.fired| == 1 && d.fired[0].alert == d.alert
                              && IsEmergencyAlert(d.alert))
            && (r.flameScope > THRESHOLD_FLAME_EMERGENCY ==> d.alert == FireEmergency)
            && (!(r.flameScope > THRESHOLD_FLAME_EMERGENCY) && r.smokeScope > THRESHOLD_SMOKE_EMERGENCY
                ==> d.alert == SmokeEmergency)
            && (!(r.flameScope > THRESHOLD_FLAME_EMERGENCY) && !(r.smokeScope > THRESHOLD_SMOKE_EMERGENCY)
                && r.temperature > THRESHOLD_TEMP_EMERGENCY
                ==> d.alert == TempEmergency)
            && (!(r.flameScope > THRESHOLD_FLAME_EMERGENCY) && !(r.smokeScope > THRESHOLD_SMOKE_EMERGENCY)
                && !(r.temperature > THRESHOLD_TEMP_EMERGENCY) && r.heatScope > THRESHOLD_HEAT_EMERGENCY
                ==> d.alert == HeatEmergency)
  {
    var rs := EMERGENCY_RULES;
    NoMatchNoneFires(rs, r);
    assert Fires(rs[0], r) <==> r.flameScope > THRESHOLD_FLAME_EMERGENCY;
    assert Fires(rs[1], r) <==> r.smokeScope > THRESHOLD_SMOKE_EMERGENCY;
    assert Fires(rs[2], r) <==> r.temperature > THRESHOLD_TEMP_EMERGENCY;
    assert Fires(rs[3], r) <==> r.heatScope > THRESHOLD_HEAT_EMERGENCY;
    if Fires(rs[0], r) {
      FirstMatchIsEarliest(rs, r, 0);
    } else if Fires(rs[1], r) {
      FirstMatchIsEarliest(rs, r, 1);
    } else if Fires(rs[2], r) {
      FirstMatchIsEarliest(rs, r, 2);
    } else if Fires(rs[3], r) {
      FirstMatchIsEarliest(rs, r, 3);
    }
  }

  /** Warning band (no emergency breach): the rules reported are exactly the
      warning rules that fire, and the force-upload flag is raised exactly
      when one does: every warning takes effect. */
  lemma WarningAllApply(r: Readings)
    requires !AnyEmergencyBreach(r)
    ensures var d := Detect(false, r);
            && !d.lockout
            && (forall x :: x in d.fired <==> x in WARNING_RULES && Fires(x, r))
            && (d.raisesForce <==> exists j :: 0 <= j < |WARNING_RULES| && Fires(WARNING_RULES[j], r))
  {
    NoEmergencyMatch(r);
    MatchesExactlyFiring(WARNING_RULES, r);
    NoMatchNoneFires(WARNING_RULES, r);
  }

  lemma NoEmergencyMatch(r: Readings)
    requires !AnyEmergencyBreach(r)
    ensures Matches(EMERGENCY_RULES, r) == []
  {
    NoMatchNoneFires(EMERGENCY_RULES, r);
  }

  /** Warning band (no emergency breach): the alert returned is the first
      breach in the order smoke, high temperature, low temperature, high
      humidity, low humidity; the fire warning is never the one returned,
      since its threshold equals the fire emergency threshold. */
  lemma WarningFirstReturned(r: Readings)
    requires !AnyEmergencyBreach(r)
    ensures Detect(false, r).alert
            == (if r.smokeScope > THRESHOLD_SMOKE_WARNING then SmokeWarning
                else if r.temperature > THRESHOLD_TEMP_HIGH then TempHighWarning
                else if 0.0 < r.temperature < THRESHOLD_TEMP_LOW then TempLowWarning
                else if r.humidity > THRESHOLD_HUMIDITY_HIGH then HumidityHighWarning
                else if 0.0 < r.humidity < THRESHOLD_HUMIDITY_LOW then HumidityLowWarning
                else AlertNone)
  {
    NoEmergencyMatch(r);
    var rs := WARNING_RULES;
    assert !Fires(rs[0], r);
    if Fires(rs[1], r) {
      FirstMatchIsEarliest(rs, r, 1);
    } else if Fires(rs[2], r) {
      FirstMatchIsEarliest(rs, r, 2);
    } else if Fires(rs[3], r) {
      FirstMatchIsEarliest(rs, r, 3);
    } else if Fires(rs[4], r) {
      FirstMatchIsEarliest(rs, r, 4);
    } else if Fires(rs[5], r) {
      FirstMatchIsEarliest(rs, r, 5);
    } else {
      NoMatchNoneFires(rs, r);
    }
  }

  /** Whatever the state and readings, the detector never returns the fire
      warning; a smoke warning is returned only for a smoke reading in
      (90, 95]. */
  lemma FireWarningUnreachable(emergencyMode: bool, r: Readings)
    ensures Detect(emergencyMode, r).alert != FireWarning
    ensures Detect(emergencyMode, r).alert == SmokeWarning
            ==> THRESHOLD_SMOKE_WARNING < r.smokeScope <= THRESHOLD_SMOKE_EMERGENCY
  {
    if !emergencyMode {
      EmergencyFirstBreachWins(r);
      if !AnyEmergencyBreach(r) {
        WarningFirstReturned(r);
      }
    }
  }

  /** At most one temperature warning and at most one humidity warning are
      reported per cycle, and the -1 sentinel of an unsampled reading never
      fires the low-temperature or low-humidity rule. */
  lemma WarningPairsExclusive(r: Readings)
    ensures !(Fires(WARNING_RULES[2], r) && Fires(WARNING_RULES[3], r))
    ensures !(Fires(WARNING_RULES[4], r) && Fires(WARNING_RULES[5], r))
    ensures r.temperature == -1.0 ==> !Fires(WARNING_RULES[3], r)
    ensures r.humidity == -1.0 ==> !Fires(WARNING_RULES[5], r)
  {
  }

  /** The readings of a freshly booted device (five sentinels and a zero heat
      reading) trigger nothing. */
  lemma UnsampledReadingsAreQuiet()
    ensures Detect(false, Readings(-1.0, -1.0, -1.0, 0.0, -1.0, -1.0)) == Detection(AlertNone, false, false, [])
  {
    var r := Readings(-1.0, -1.0, -1.0, 0.0, -1.0, -1.0);
    NoMatchNoneFires(EMERGENCY_RULES, r);
    NoMatchNoneFires(WARNING_RULES, r);
  }

  /** Two worked cases: 36 degrees with normal humidity and no flame or smoke
      gives a high-temperature warning with a forced upload and no lockout; a
      flame reading of 75 gives a fire emergency with the lockout. */
  lemma WorkedCases(heat: real, light: real)
    requires heat <= THRESHOLD_HEAT_EMERGENCY
    ensures Detect(false, Readings(light, 0.0, 0.0, heat, 50.0, 36.0)).alert == TempHighWarning
    ensures Detect(false, Readings(light, 0.0, 0.0, heat, 50.0, 36.0)).raisesForce
    ensures !Detect(false, Readings(light, 0.0, 0.0, heat, 50.0, 36.0)).lockout
    ensures Detect(false, Readings(light, 0.0, 75.0, heat, 50.0, 20.0)).alert == FireEmergency
    ensures Detect(false, Readings(light, 0.0, 75.0, heat, 50.0, 20.0)).lockout
  {
    var r := Readings(light, 0.0, 0.0, heat, 50.0, 36.0);
    WarningFirstReturned(r);
    WarningAllApply(r);
    assert Fires(WARNING_RULES[2], r);
    EmergencyFirstBreachWins(Readings(light, 0.0, 75.0, heat, 50.0, 20.0));
  }

  /** `get_alert_type_string`: the name of each alert; the default branch
      (reached only by `ALERT_NONE`) gives "UNKNOWN". */
  function AlertTypeString(a: AlertType): string
  {
    match a
    case FireEmergency => "FIRE_EMERGENCY"
    case SmokeEmergency => "SMOKE_EMERGENCY"
    case TempEmergency => "TEMP_EMERGENCY"
    case HeatEmergency => "HEAT_EMERGENCY"
    case FireWarning => "FIRE_WARNING"
    case SmokeWarning => "SMOKE_WARNING"
    case TempHighWarning => "TEMP_HIGH_WARNING"
    case TempLowWarning => "TEMP_LOW_WARNING"
    case HumidityHighWarning => "HUMIDITY_HIGH_WARNING"
    case HumidityLowWarning => "HUMIDITY_LOW_WARNING"
    case AlertNone => "UNKNOWN"
  }

  /** Reading an alert back from its name (the inverse of
      `AlertTypeString` on the ten named alerts). */
  function AlertFromString(name: string): AlertType
  {
    if name == "FIRE_EMERGENCY" then FireEmergency
    else if name == "SMOKE_EMERGENCY" then SmokeEmergency
    else if name == "TEMP_EMERGENCY" then TempEmergency
    else if name == "HEAT_EMERGENCY" then HeatEmergency
    else if name == "FIRE_WARNING" then FireWarning
    else if name == "SMOKE_WARNING" then SmokeWarning
    else if name == "TEMP_HIGH_WARNING" then TempHighWarning
    else if name == "TEMP_LOW_WARNING" then TempLowWarning
    else if name == "HUMIDITY_HIGH_WARNING" then HumidityHighWarning
    else if name == "HUMIDITY_LOW_WARNING" then HumidityLowWarning
    else AlertNone
  }

  /** Alert names identify alerts: each name reads back as its alert, so
      distinct alerts have distinct names; only `ALERT_NONE` is "UNKNOWN". */
  lemma AlertNamesRoundTrip(a: AlertType)
    ensures AlertFromString(AlertTypeString(a)) == a
    ensures AlertTypeString(a) == "UNKNOWN" <==> a == AlertNone
  {
  }

  lemma AlertNamesDistinct(a: AlertType, b: AlertType)
    ensures AlertTypeString(a) == AlertTypeString(b) ==> a == b
  {
    AlertNamesRoundTrip(a);
    AlertNamesRoundTrip(b);
  }
}
