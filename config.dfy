/** Constants, alert enumeration and record-size limits of the workstation firmware
    (main/inc/config.h). */
module Config {

  /** Production mode: an emergency-band alert powers the workstation off and
      suspends normal uploads. Only that branch of the firmware is modelled. */
  const ENABLE_AUTO_POWER_OFF: bool := true

  // Emergency thresholds (handled locally, trigger the lockout).
  const THRESHOLD_FLAME_EMERGENCY: real := 70.0
  const THRESHOLD_SMOKE_EMERGENCY: real := 95.0
  const THRESHOLD_TEMP_EMERGENCY: real := 50.0
  const THRESHOLD_HEAT_EMERGENCY: real := 80.0

  // Warning thresholds (reported only).
  const THRESHOLD_FLAME_WARNING: real := 70.0
  const THRESHOLD_SMOKE_WARNING: real := 90.0
  const THRESHOLD_TEMP_HIGH: real := 35.0
  const THRESHOLD_TEMP_LOW: real := 10.0
  const THRESHOLD_HUMIDITY_HIGH: real := 65.0
  const THRESHOLD_HUMIDITY_LOW: real := 20.0

  // Auto-control thresholds.
  const THRESHOLD_LIGHT_AUTO_ON: real := 30.0
  const THRESHOLD_SMOKE_AUTO_ON: real := 50.0

  // Actuator GPIO numbers.
  const SET_RELAY_NUM1_GPIO: nat := 13
  const SET_RELAY_NUM2_GPIO: nat := 4
  const SET_LIGHT_CONTROL_GPIO: nat := 2
  const SET_POWER_STATUS_GPIO: nat := 0

  /** `char curUsername[12]`: room for 11 characters and the terminator. */
  const CUR_USERNAME_SIZE: nat := 12

  // Reserved user names.
  const NULL_USER: string := "null"
  const ADMIN_USER: string := "0000000001"
  const UNKNOWN_USER: string := "UNKNOWN"

  /** A user name fits the 12-byte `curUsername` buffer as a C string. */
  predicate UsernameFits(u: string)
  {
    |u| < CUR_USERNAME_SIZE && '\0' !in u
  }

  /** The reserved names, and any NUL-free name of at most ten characters
      (a card name), fit the user name buffer. */
  lemma ReservedNamesFit(name: string)
    requires |name| <= 10 && '\0' !in name
    ensures UsernameFits(NULL_USER) && UsernameFits(ADMIN_USER) && UsernameFits(UNKNOWN_USER)
    ensures UsernameFits(name)
  {
  }

  /** The `AlertType` enumeration, in declaration order. */
  datatype AlertType =
    | AlertNone
    | FireEmergency
    | SmokeEmergency
    | TempEmergency
    | HeatEmergency
    | FireWarning
    | SmokeWarning
    | TempHighWarning
    | TempLowWarning
    | HumidityHighWarning
    | HumidityLowWarning

  /** The integer value the C enumeration gives each alert. */
  function AlertCode(a: AlertType): (c: nat)
    ensures c <= 10
    ensures c == 0 <==> a == AlertNone
  {
    match a
    case AlertNone => 0
    case FireEmergency => 1
    case SmokeEmergency => 2
    case TempEmergency => 3
    case HeatEmergency => 4
    case FireWarning => 5
    case SmokeWarning => 6
    case TempHighWarning => 7
    case TempLowWarning => 8
    case HumidityHighWarning => 9
    case HumidityLowWarning => 10
  }

  /** The emergency band, named alert by alert. */
  predicate IsEmergencyAlert(a: AlertType)
  {
    a == FireEmergency || a == SmokeEmergency || a == TempEmergency || a == HeatEmergency
  }

  /** The warning band, named alert by alert. */
  predicate IsWarningAlert(a: AlertType)
  {
    a == FireWarning || a == SmokeWarning || a == TempHighWarning
    || a == TempLowWarning || a == HumidityHighWarning || a == HumidityLowWarning
  }

  /** The range test `ALERT_FIRE_EMERGENCY <= alert <= ALERT_HEAT_EMERGENCY`
      that the sampling loop uses to recognise the emergency band. */
  predicate InEmergencyCodeRange(a: AlertType)
  {
    AlertCode(FireEmergency) <= AlertCode(a) <= AlertCode(HeatEmergency)
  }

  /** The enumeration is ordered so that the codes 1..4 are exactly the
      emergency band and 5..10 exactly the warning band: the range test of the
      sampling loop is sound and complete. */
  lemma EmergencyBandIsContiguous(a: AlertType)
    ensures InEmergencyCodeRange(a) <==> IsEmergencyAlert(a)
    ensures 5 <= AlertCode(a) <= 10 <==> IsWarningAlert(a)
    ensures a == AlertNone || IsEmergencyAlert(a) || IsWarningAlert(a)
  {
  }

  /** Distinct alerts have distinct codes. */
  lemma AlertCodeInjective(a: AlertType, b: AlertType)
    ensures AlertCode(a) == AlertCode(b) ==> a == b
  {
  }
}
