/** One pass of the sampling loop of `Task_ReadSensorValue` (main/main.c)
    and the loop itself: store the readings, run the detector, run the
    automatic control, stop early after an emergency (the production build
    has `ENABLE_AUTO_POWER_OFF` set), otherwise run the upload scheduler.
    The loop's two counters are the fields of a `SensorTask` object; the
    workstation record is the shared `Workstation` object. */
module SensorTask {
  import opened Config
  import opened Anomaly
  import opened Scheduler
  import S = Station
  import W = Workstation

  /** The outcome of one sample. */
  datatype CycleOutcome = CycleOutcome(
    state: S.State,
    counters: Counters,
    alert: AlertType,
    published: seq<S.Publication>,
    sent: Payload)

  /** One pass of the loop on the readings `r` of this sample. */
  function SamplingCycle(s: S.State, c: Counters, r: Readings, connected: bool): CycleOutcome
  {
    var o := S.DetectStep(s.(readings := r), connected);
    var t := S.AutoControl(o.state);
    if ENABLE_AUTO_POWER_OFF && InEmergencyCodeRange(o.alert) then
      CycleOutcome(t, c, o.alert, o.published, Nothing)
    else
      var step := ScheduleTick(c, t.forceUpload, t.curUsername);
      CycleOutcome(t.(forceUpload := step.forceUpload), step.counters, o.alert, o.published,
                   Sent(step.kind, t, connected))
  }

  /** What the loop is given for one sample: the calibrated readings and
      whether MQTT is connected at that moment. */
  datatype Sample = Sample(readings: Readings, connected: bool)

  /** The invariant the loop keeps: the lockout safety property, outputs in
      agreement with their pins, a user name that fits, and counters below
      their periods. */
  predicate LoopInvariant(s: S.State, c: Counters)
  {
    S.LockoutHolds(s) && S.PinsAgree(s) && S.Valid(s) && Bounded(c)
  }

  /** The record and the counters after a run of samples, pass by pass. */
  function Cycles(s: S.State, c: Counters, samples: seq<Sample>): (S.State, Counters)
  {
    if samples == [] then (s, c)
    else
      var n := |samples| - 1;
      var p := Cycles(s, c, samples[..n]);
      var o := SamplingCycle(p.0, p.1, samples[n].readings, samples[n].connected);
      (o.state, o.counters)
  }

  class SensorTask {
    /** `upload_counter` and `basic_upload_counter` (both `uint8_t`). */
    var uploadCounter: int
    var basicUploadCounter: int

    function CountersNow(): Counters
      reads this
    {
      Counters(uploadCounter, basicUploadCounter)
    }

    ghost predicate Valid()
      reads this
    {
      IsByte(CountersNow())
    }

    /** Both counters start at 0. */
    constructor ()
      ensures Valid() && CountersNow() == START
    {
      uploadCounter := 0;
      basicUploadCounter := 0;
    }

    /** The counter and upload part of the loop body. */
    method Tick(ws: W.Workstation, connected: bool) returns (sent: Payload)
      requires Valid()
      modifies this, ws
      ensures Valid()
      ensures var step := ScheduleTick(old(CountersNow()), old(ws.forceUpload), old(ws.curUsername));
              && CountersNow() == step.counters
              && ws.Snapshot() == old(ws.Snapshot()).(forceUpload := step.forceUpload)
              && sent == Sent(step.kind, old(ws.Snapshot()), connected)
    {
      uploadCounter := (uploadCounter + 1) % 256;
      basicUploadCounter := (basicUploadCounter + 1) % 256;
      var shouldUpload := false;
      var shouldUploadBasic := false;
      if uploadCounter >= 12 {
        shouldUpload := true;
        uploadCounter := 0;
      }
      if ws.forceUpload {
        shouldUpload := true;
        uploadCounter := 0;
        basicUploadCounter := 0;
        ws.forceUpload := false;
      } else if ws.curUsername != NULL_USER {
        basicUploadCounter := 0;
      }
      if ws.curUsername == NULL_USER {
        if basicUploadCounter >= 6 {
          shouldUploadBasic := true;
          basicUploadCounter := 0;
        }
      }
      sent := Nothing;
      if shouldUpload || shouldUploadBasic {
        if connected {
          if shouldUpload {
            sent := FullPayload(ws.readings, ws.lightStatus, ws.powerStatus,
                                ws.relayNum1Status, ws.relayNum2Status, ws.curUsername);
          } else if shouldUploadBasic {
            sent := BasicPayload(ws.readings.humidity, ws.readings.temperature, ws.readings.smokeScope);
          }
        }
      }
    }

    /** One pass of the loop body on the readings `r`. */
    method Cycle(ws: W.Workstation, r: Readings, connected: bool)
      returns (alert: AlertType, published: seq<S.Publication>, sent: Payload)
      requires Valid()
      modifies this, ws
      ensures Valid()
      ensures var o := SamplingCycle(old(ws.Snapshot()), old(CountersNow()), r, connected);
              && ws.Snapshot() == o.state && CountersNow() == o.counters
              && alert == o.alert && published == o.published && sent == o.sent
    {
      ws.StoreReadings(r);
      alert, published := ws.DetectSensorAnomalies(connected);
      ws.AutoControl();
      if ENABLE_AUTO_POWER_OFF && AlertCode(FireEmergency) <= AlertCode(alert) <= AlertCode(HeatEmergency) {
        return alert, published, Nothing;
      }
      sent := Tick(ws, connected);
    }

    /** The loop over a finite run of samples: the record and the counters
        end as the passes one after the other leave them, and every pass
        keeps the lockout safety property, pin agreement, the user name bound
        and the counter bounds. */
    method Run(ws: W.Workstation, samples: seq<Sample>)
      requires Valid() && LoopInvariant(ws.Snapshot(), CountersNow())
      modifies this, ws
      ensures (ws.Snapshot(), CountersNow()) == Cycles(old(ws.Snapshot()), old(CountersNow()), samples)
      ensures Valid() && LoopInvariant(ws.Snapshot(), CountersNow())
    {
      ghost var s0 := ws.Snapshot();
      ghost var c0 := CountersNow();
      for i := 0 to |samples|
        invariant (ws.Snapshot(), CountersNow()) == Cycles(s0, c0, samples[..i])
        invariant Valid() && LoopInvariant(ws.Snapshot(), CountersNow())
      {
        ghost var s := ws.Snapshot();
        ghost var c := CountersNow();
        var _, _, _ := Cycle(ws, samples[i].readings, samples[i].connected);
        CycleKeepsInvariant(s, c, samples[i].readings, samples[i].connected);
        assert samples[..i + 1][..i] == samples[..i];
      }
      assert samples[..|samples|] == samples;
    }
  }

  // =====================================================================
  // Properties

  /** Every pass keeps the loop invariant: in particular, once latched, the
      outputs stay off whatever the readings, and the counters never wrap. */
  lemma CycleKeepsInvariant(s: S.State, c: Counters, r: Readings, connected: bool)
    requires LoopInvariant(s, c)
    ensures var o := SamplingCycle(s, c, r, connected);
            LoopInvariant(o.state, o.counters)
  {
    var s1 := s.(readings := r);
    S.DetectStepKeepsInvariants(s1, connected);
    var o := S.DetectStep(s1, connected);
    S.AutoControlOutcome(o.state);
    ScheduleTickKeepsBounds(c, S.AutoControl(o.state).forceUpload, S.AutoControl(o.state).curUsername);
  }

  /** Any run of samples keeps the loop invariant: once latched, the outputs
      stay off whatever the readings, and the counters never wrap. */
  lemma {:induction false} CyclesKeepInvariant(s: S.State, c: Counters, samples: seq<Sample>)
    requires LoopInvariant(s, c)
    ensures var p := Cycles(s, c, samples); LoopInvariant(p.0, p.1)
  {
    if samples != [] {
      var n := |samples| - 1;
      CyclesKeepInvariant(s, c, samples[..n]);
      var p := Cycles(s, c, samples[..n]);
      CycleKeepsInvariant(p.0, p.1, samples[n].readings, samples[n].connected);
    }
  }

  /** A sample whose readings breach the emergency band (when not latched)
      ends with every output off and the lockout latched, skips the
      automatic control, leaves the counters and the force-upload flag as
      they were, and sends nothing on the property topic. */
  lemma CycleEmergencySkipsUpload(s: S.State, c: Counters, r: Readings, connected: bool)
    requires !s.emergencyMode && AnyEmergencyBreach(r)
    ensures var o := SamplingCycle(s, c, r, connected);
            && o.state.emergencyMode && S.OutputsOff(o.state)
            && o.counters == c && o.sent == Nothing
            && o.state.forceUpload == s.forceUpload && o.state.curUsername == s.curUsername
            && IsEmergencyAlert(o.alert)
  {
    S.DetectStepEmergency(s.(readings := r), connected);
  }

  /** While latched, a sample is not an emergency any more: detection
      returns `ALERT_NONE`, the outputs stay as they were (off, under the
      lockout), and the scheduler runs as usual, so uploads go on reporting
      the powered-off record. */
  lemma CycleWhileLatched(s: S.State, c: Counters, r: Readings, connected: bool)
    requires s.emergencyMode && Bounded(c)
    ensures var o := SamplingCycle(s, c, r, connected);
            var step := ScheduleTick(c, s.forceUpload, s.curUsername);
            && o.alert == AlertNone && o.published == []
            && o.state == s.(readings := r, forceUpload := false)
            && o.counters == step.counters
            && o.sent == Sent(step.kind, s.(readings := r), connected)
  {
    S.DetectStepLatched(s.(readings := r), connected);
  }

  /** Outside an emergency the force-upload flag is always consumed by the
      end of the pass, and a warning (or any earlier event that raised the
      flag) gets a full upload out in the same pass when connected. */
  lemma CycleConsumesForce(s: S.State, c: Counters, r: Readings)
    requires Bounded(c) && !s.emergencyMode && !AnyEmergencyBreach(r)
    requires s.forceUpload || exists j :: 0 <= j < |WARNING_RULES| && Fires(WARNING_RULES[j], r)
    ensures var o := SamplingCycle(s, c, r, true);
            && !o.state.forceUpload && o.counters == START && o.sent.FullPayload?
            && o.sent.readings == r
  {
    var s1 := s.(readings := r);
    S.DetectStepWarning(s1, true);
    var o := S.DetectStep(s1, true);
    EmergencyBandIsContiguous(o.alert);
    var t := S.AutoControl(o.state);
    S.AutoControlOutcome(o.state);
    ScheduleTickDecision(c, t.forceUpload, t.curUsername);
  }
}
