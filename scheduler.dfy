/** The upload scheduler of the sampling loop in `Task_ReadSensorValue`
    (main/main.c): two `uint8_t` counters advanced once per five-second
    sample, a full upload every twelfth sample or at once when the
    force-upload flag is raised, and a basic upload every sixth sample while
    no card user is present. Full beats basic; nothing goes out while MQTT is
    disconnected, but the counters and the flag are reset all the same. */
module Scheduler {
  import opened Config
  import opened Anomaly
  import S = Station

  /** `upload_counter` and `basic_upload_counter`. */
  datatype Counters = Counters(upload: int, basic: int)

  /** The counters the loop starts with. */
  const START: Counters := Counters(0, 0)

  /** Samples between two regular full uploads (60 s at one sample per 5 s). */
  const FULL_PERIOD: nat := 12
  /** Samples between two basic uploads (30 s). */
  const BASIC_PERIOD: nat := 6

  /** Which upload a sample asks for. */
  datatype Kind = NoUpload | FullUpload | BasicUpload

  /** What is published on the property topic: the complete record, or the
      three basic readings. The JSON text itself is not modelled. */
  datatype Payload =
    | Nothing
    | FullPayload(readings: Readings, lightStatus: int, powerStatus: int,
                  relayNum1Status: int, relayNum2Status: int, username: string)
    | BasicPayload(humidity: real, temperature: real, smokeScope: real)

  /** The result of one scheduler step: the new counters, the new value of
      the force-upload flag and the upload asked for. */
  datatype Step = Step(counters: Counters, forceUpload: bool, kind: Kind)

  /** `x++` on a `uint8_t`. */
  function Inc8(x: int): int
  {
    (x + 1) % 256
  }

  /** The counters are valid `uint8_t` values. */
  predicate IsByte(c: Counters)
  {
    0 <= c.upload < 256 && 0 <= c.basic < 256
  }

  /** The bound the scheduler keeps: both counters below their periods. */
  predicate Bounded(c: Counters)
  {
    0 <= c.upload < FULL_PERIOD && 0 <= c.basic < BASIC_PERIOD
  }

  /** One scheduler step after a sample that did not end in an emergency:
      advance both counters; a counter at 12 asks for a full upload; a
      raised flag asks for one too, resets both counters and clears itself;
      otherwise a card user resets the basic counter; then, with no card
      user, a basic counter at 6 asks for a basic upload. */
  function ScheduleTick(c: Counters, force: bool, username: string): Step
  {
    var upload := Inc8(c.upload);
    var basic := Inc8(c.basic);
    var timerFull := upload >= FULL_PERIOD;
    var upload1 := if timerFull then 0 else upload;
    var upload2 := if force then 0 else upload1;
    var basic1 := if force || username != NULL_USER then 0 else basic;
    var timerBasic := username == NULL_USER && basic1 >= BASIC_PERIOD;
    var basic2 := if timerBasic then 0 else basic1;
    var kind := if timerFull || force then FullUpload else if timerBasic then BasicUpload else NoUpload;
    Step(Counters(upload2, basic2), false, kind)
  }

  /** The payload of an upload, built from the record after detection and
      automatic control. */
  function PayloadOf(kind: Kind, s: S.State): Payload
  {
    match kind
    case NoUpload => Nothing
    case FullUpload =>
      FullPayload(s.readings, s.lightStatus, s.powerStatus, s.relayNum1Status, s.relayNum2Status, s.curUsername)
    case BasicUpload => BasicPayload(s.readings.humidity, s.readings.temperature, s.readings.smokeScope)
  }

  /** What actually goes out: the payload when MQTT is connected, else nothing. */
  function Sent(kind: Kind, s: S.State, connected: bool): (p: Payload)
    ensures p != Nothing ==> connected && kind != NoUpload
    ensures p.FullPayload? <==> connected && kind == FullUpload
    ensures p.BasicPayload? <==> connected && kind == BasicUpload
  {
    if connected then PayloadOf(kind, s) else Nothing
  }

  // =====================================================================
  // Properties

  /** Which upload a step asks for: full exactly when the flag is raised or
      the upload counter reaches 12; basic exactly when neither holds, no
      card user is present and the basic counter reaches 6; so at most one
      payload per sample and full wins over basic. The flag is always clear
      afterwards, and a raised flag resets both counters. */
  lemma ScheduleTickDecision(c: Counters, force: bool, username: string)
    requires Bounded(c)
    ensures var t := ScheduleTick(c, force, username);
            && (t.kind == FullUpload <==> force || c.upload + 1 >= FULL_PERIOD)
            && (t.kind == BasicUpload <==>
                  !force && c.upload + 1 < FULL_PERIOD && username == NULL_USER && c.basic + 1 >= BASIC_PERIOD)
            && !t.forceUpload
            && (force ==> t.counters == START)
            && (username != NULL_USER ==> t.counters.basic == 0)
            && IsByte(t.counters)
  {
  }

  /** Full wins over basic: when both periods are due in the same sample,
      only the full payload is asked for, and the basic counter is reset
      anyway. */
  lemma FullWinsOverBasic(c: Counters)
    requires Bounded(c) && c.upload + 1 == FULL_PERIOD && c.basic + 1 == BASIC_PERIOD
    ensures ScheduleTick(c, false, NULL_USER) == Step(START, false, FullUpload)
  {
  }

  /** The counters never exceed their periods, so the `uint8_t` increments
      never wrap. */
  lemma ScheduleTickKeepsBounds(c: Counters, force: bool, username: string)
    requires Bounded(c)
    ensures Inc8(c.upload) == c.upload + 1 && Inc8(c.basic) == c.basic + 1
    ensures Bounded(ScheduleTick(c, force, username).counters)
  {
  }

  /** `n` samples in a row with the flag down and the same user. */
  function Run(c: Counters, n: nat, username: string): Counters
  {
    if n == 0 then c else ScheduleTick(Run(c, n - 1, username), false, username).counters
  }

  /** From the start, after `n` quiet samples the upload counter is `n mod
      12`, and the basic counter is `n mod 6` with no card user and 0 with
      one. */
  lemma {:induction false} RunFromStart(n: nat, username: string)
    ensures Run(START, n, username)
            == Counters(n % FULL_PERIOD, if username == NULL_USER then n % BASIC_PERIOD else 0)
  {
    if n > 0 {
      var k := n - 1;
      RunFromStart(k, username);
      var c := Run(START, k, username);
      ModStep(k, FULL_PERIOD);
      ModStep(k, BASIC_PERIOD);
      ScheduleTickKeepsBounds(c, false, username);
    }
  }

  /** Counting modulo `m` one step further. */
  lemma ModStep(k: nat, m: nat)
    requires m == FULL_PERIOD || m == BASIC_PERIOD
    ensures (k + 1) % m == if k % m + 1 == m then 0 else k % m + 1
    ensures 0 <= k % m < m
  {
  }

  /** The periodic schedule: from the start, with the flag down, sample `n`
      (counting from 1) asks for a full upload exactly when `n` is a
      multiple of 12, and for a basic upload exactly when no card user is
      present and `n` is a multiple of 6 but not of 12. */
  lemma PeriodicUploads(n: nat, username: string)
    requires n >= 1
    ensures ScheduleTick(Run(START, n - 1, username), false, username).kind
            == if n % FULL_PERIOD == 0 then FullUpload
               else if username == NULL_USER && n % BASIC_PERIOD == 0 then BasicUpload
               else NoUpload
  {
    RunFromStart(n - 1, username);
    ModStep(n - 1, FULL_PERIOD);
    ModStep(n - 1, BASIC_PERIOD);
    ScheduleTickDecision(Run(START, n - 1, username), false, username);
  }
}
