/** The key recogniser of components/key/key.c: one context per key in a
    static array, advanced once per tick by `Key_UpdateState` through the
    states IDLE, DEBOUNCE, PRESSED and LONG_ACTIVE, with a tick counter and a
    long-press latch. Events go to `Key_EventHandler`, whose default version
    forwards them to the key queue. The pins are pulled up, so a low level
    means the key is pressed; the sampled levels are inputs here. */
module Key {

  /** `KEY_TOTAL_COUNT`, `KEY_DEBOUNCE_TIME_TICKS`, `KEY_LONG_PRESS_TIME_TICKS`. */
  const KEY_TOTAL_COUNT: nat := 2
  const KEY_DEBOUNCE_TIME_TICKS: nat := 2
  const KEY_LONG_PRESS_TIME_TICKS: nat := 50

  /** `KEY_ID_3` and `KEY_ID_4`, which the default handler drops. */
  const KEY_ID_3: int := 3
  const KEY_ID_4: int := 4

  /** `stateDurationTicks` is a `uint16_t`. */
  const DURATION_MODULUS: int := 0x1_0000

  /** The four enumerated states, and any other value the field could hold. */
  datatype KeyState = Idle | Debounce | Pressed | LongActive | Undefined(code: int)

  datatype KeyEvent = NoEvent | ShortPressed | LongPressed

  /** `KeyContext_t`. */
  datatype KeyContext = KeyContext(
    keyId: int,
    state: KeyState,
    isPressed: bool,
    stateDurationTicks: int,
    isLongPressDetected: bool)

  /** `KEYCallBackBase_t`, the message put on the key queue. */
  datatype KeyCallBack = KeyCallBack(keyId: int, keyEvent: KeyEvent)

  /** A context as zero-initialised static storage holds it. */
  const ZERO_CONTEXT: KeyContext := KeyContext(0, Idle, false, 0, false)

  /** The context `Key_Init` gives key `i` (ids start at 1). */
  function InitialContext(i: nat): KeyContext
  {
    KeyContext(i + 1, Idle, false, 0, false)
  }

  /** The state machine of one key for one tick, given the sampled pin level
      (`true` = high = released): the transition of the current state, then
      the unconditional increment of the `uint16_t` tick counter. */
  function Step(k: KeyContext, level: bool): (KeyContext, KeyEvent)
  {
    var pressed := !level;
    var k0 := k.(isPressed := pressed);
    var (k1, ev) :=
      match k.state
      case Idle =>
        ((if pressed then k0.(state := Debounce, isLongPressDetected := false) else k0).(stateDurationTicks := 0),
         NoEvent)
      case Debounce =>
        if !pressed then (k0.(state := Idle), NoEvent)
        else if k.stateDurationTicks >= KEY_DEBOUNCE_TIME_TICKS then
          (k0.(state := Pressed, stateDurationTicks := 0, isLongPressDetected := false), NoEvent)
        else (k0, NoEvent)
      case Pressed =>
        if !pressed then (k0.(state := Idle, stateDurationTicks := 0), ShortPressed)
        else if k.stateDurationTicks >= KEY_LONG_PRESS_TIME_TICKS then
          (k0.(state := LongActive, isLongPressDetected := true),
           if !k.isLongPressDetected then LongPressed else NoEvent)
        else (k0, NoEvent)
      case LongActive =>
        if !pressed then (k0.(state := Idle, isLongPressDetected := false), NoEvent)
        else (k0.(stateDurationTicks := 0), NoEvent)
      case Undefined(_) =>
        (k0.(state := Idle, stateDurationTicks := 0), NoEvent);
    (k1.(stateDurationTicks := (k1.stateDurationTicks + 1) % DURATION_MODULUS), ev)
  }

  /** The default `Key_EventHandler`: one message on the queue when the queue
      exists and the key is neither key 3 nor key 4. */
  function HandlerSends(queuePresent: bool, id: int, ev: KeyEvent): seq<KeyCallBack>
  {
    if queuePresent && id != KEY_ID_3 && id != KEY_ID_4 then [KeyCallBack(id, ev)] else []
  }

  /** What the handler is called with for one key's tick: nothing when the
      tick raised no event. */
  function Dispatch(queuePresent: bool, id: int, ev: KeyEvent): seq<KeyCallBack>
  {
    if ev == NoEvent then [] else HandlerSends(queuePresent, id, ev)
  }

  /** Every context advanced by one tick. */
  function TickAll(cs: seq<KeyContext>, levels: seq<bool>): (ts: seq<KeyContext>)
    requires |levels| == |cs|
    ensures |ts| == |cs| && forall i :: 0 <= i < |cs| ==> ts[i] == Step(cs[i], levels[i]).0
  {
    seq(|cs|, i requires 0 <= i < |cs| => Step(cs[i], levels[i]).0)
  }

  /** The messages a whole tick sends, key by key in index order. */
  function Messages(cs: seq<KeyContext>, levels: seq<bool>, queuePresent: bool): seq<KeyCallBack>
    requires |levels| == |cs|
  {
    if cs == [] then []
    else
      var n := |cs| - 1;
      Messages(cs[..n], levels[..n], queuePresent) + Dispatch(queuePresent, cs[n].keyId, Step(cs[n], levels[n]).1)
  }

  /** The contexts of the key array. */
  class Keys {
    /** `keyCtx[KEY_TOTAL_COUNT]`. */
    const keyCtx: array<KeyContext>

    /** The static array before `Key_Init`: zero-initialised. */
    constructor ()
      ensures keyCtx.Length == KEY_TOTAL_COUNT && fresh(keyCtx)
      ensures forall i :: 0 <= i < keyCtx.Length ==> keyCtx[i] == ZERO_CONTEXT
    {
      keyCtx := new KeyContext[KEY_TOTAL_COUNT](_ => ZERO_CONTEXT);
    }

    /** `Key_Init` (apart from configuring the pins): every context IDLE,
        with id `index + 1` and everything else cleared. */
    method Init()
      modifies keyCtx
      ensures forall i :: 0 <= i < keyCtx.Length ==> keyCtx[i] == InitialContext(i)
    {
      for i := 0 to keyCtx.Length
        invariant forall j :: 0 <= j < i ==> keyCtx[j] == InitialContext(j)
      {
        keyCtx[i] := keyCtx[i].(state := Idle);
        keyCtx[i] := keyCtx[i].(keyId := i + 1);
        keyCtx[i] := keyCtx[i].(isPressed := false);
        keyCtx[i] := keyCtx[i].(stateDurationTicks := 0);
        keyCtx[i] := keyCtx[i].(isLongPressDetected := false);
      }
    }

    /** The body of `Key_UpdateState` for key `i`: it changes `keyCtx[i]`
        and no other context, and sends what the handler sends for the event
        the tick raised. */
    method UpdateKey(i: nat, level: bool, queuePresent: bool) returns (sent: seq<KeyCallBack>)
      requires i < keyCtx.Length
      modifies keyCtx
      ensures keyCtx[i] == Step(old(keyCtx[i]), level).0
      ensures forall j :: 0 <= j < keyCtx.Length && j != i ==> keyCtx[j] == old(keyCtx[j])
      ensures sent == Dispatch(queuePresent, old(keyCtx[i]).keyId, Step(old(keyCtx[i]), level).1)
    {
      var keyEvent := NoEvent;
      keyCtx[i] := keyCtx[i].(isPressed := !level);
      match keyCtx[i].state {
        case Idle =>
          if keyCtx[i].isPressed {
            keyCtx[i] := keyCtx[i].(state := Debounce, isLongPressDetected := false);
          }
          keyCtx[i] := keyCtx[i].(stateDurationTicks := 0);
        case Debounce =>
          if keyCtx[i].isPressed {
            if keyCtx[i].stateDurationTicks >= KEY_DEBOUNCE_TIME_TICKS {
              keyCtx[i] := keyCtx[i].(state := Pressed, stateDurationTicks := 0, isLongPressDetected := false);
            }
          } else {
            keyCtx[i] := keyCtx[i].(state := Idle);
          }
        case Pressed =>
          if !keyCtx[i].isPressed {
            keyEvent := ShortPressed;
            keyCtx[i] := keyCtx[i].(state := Idle, stateDurationTicks := 0);
          } else if keyCtx[i].stateDurationTicks >= KEY_LONG_PRESS_TIME_TICKS {
            if !keyCtx[i].isLongPressDetected {
              keyCtx[i] := keyCtx[i].(isLongPressDetected := true);
              keyEvent := LongPressed;
            }
            keyCtx[i] := keyCtx[i].(state := LongActive);
          }
        case LongActive =>
          if !keyCtx[i].isPressed {
            keyCtx[i] := keyCtx[i].(state := Idle, isLongPressDetected := false);
          } else {
            keyCtx[i] := keyCtx[i].(stateDurationTicks := 0);
          }
        case Undefined(_) =>
          keyCtx[i] := keyCtx[i].(state := Idle, stateDurationTicks := 0);
      }
      sent := [];
      if keyEvent != NoEvent {
        sent := KeyEventHandler(queuePresent, keyCtx[i].keyId, keyEvent);
        if sent != [] {
          assert sent[0] in sent;
          assert sent == [sent[0]];
        }
      }
      keyCtx[i] := keyCtx[i].(stateDurationTicks := (keyCtx[i].stateDurationTicks + 1) % DURATION_MODULUS);
    }

    /** `Key_UpdateState`: every key in index order, given the sampled pin
        levels. */
    method UpdateState(levels: seq<bool>, queuePresent: bool) returns (sent: seq<KeyCallBack>)
      requires |levels| == keyCtx.Length
      modifies keyCtx
      ensures keyCtx[..] == TickAll(old(keyCtx[..]), levels)
      ensures sent == Messages(old(keyCtx[..]), levels, queuePresent)
    {
      sent := [];
      for i := 0 to keyCtx.Length
        invariant keyCtx[..i] == TickAll(old(keyCtx[..i]), levels[..i])
        invariant forall j :: i <= j < keyCtx.Length ==> keyCtx[j] == old(keyCtx[j])
        invariant sent == Messages(old(keyCtx[..i]), levels[..i], queuePresent)
      {
        assert keyCtx[i] == old(keyCtx[i]);
        var s := UpdateKey(i, levels[i], queuePresent);
        assert old(keyCtx[..i + 1])[..i] == old(keyCtx[..i]);
        assert old(keyCtx[..i + 1])[i] == old(keyCtx[i]);
        assert levels[..i + 1][..i] == levels[..i];
        sent := sent + s;
      }
      assert keyCtx[..] == keyCtx[..keyCtx.Length];
      assert old(keyCtx[..]) == old(keyCtx[..keyCtx.Length]);
      assert levels == levels[..keyCtx.Length];
    }
  }

  /** The default `Key_EventHandler`, with the queue modelled by whether it
      exists and the messages it is sent. */
  method KeyEventHandler(queuePresent: bool, id: int, ev: KeyEvent) returns (sent: seq<KeyCallBack>)
    ensures |sent| <= 1
    ensures sent != [] <==> queuePresent && id != KEY_ID_3 && id != KEY_ID_4
    ensures forall m :: m in sent ==> m == KeyCallBack(id, ev)
  {
    sent := [];
    if queuePresent && id != KEY_ID_3 && id != KEY_ID_4 {
      sent := [KeyCallBack(id, ev)];
    }
  }

  // =====================================================================
  // Properties

  /** What holds of a key from `Key_Init` on: the pressed flag is set exactly
      outside IDLE; the latch is set exactly in LONG_ACTIVE; DEBOUNCE and
      PRESSED count at most to their thresholds; LONG_ACTIVE has just been
      entered (counter one past the long-press threshold) or has been
      re-zeroed (counter 1); and no counter exceeds the long-press threshold
      by more than two, so the `uint16_t` never wraps. */
  predicate Reachable(k: KeyContext)
  {
    && (k.isPressed <==> !k.state.Idle?)
    && (k.isLongPressDetected <==> k.state.LongActive?)
    && match k.state
       case Idle => 0 <= k.stateDurationTicks <= KEY_LONG_PRESS_TIME_TICKS + 2
       case Debounce => 1 <= k.stateDurationTicks <= KEY_DEBOUNCE_TIME_TICKS
       case Pressed => 1 <= k.stateDurationTicks <= KEY_LONG_PRESS_TIME_TICKS
       case LongActive =>
         k.stateDurationTicks == 1 || k.stateDurationTicks == KEY_LONG_PRESS_TIME_TICKS + 1
       case Undefined(_) => false
  }

  /** The contexts `Key_Init` produces satisfy the invariant, and their ids
      are never the two ids the default handler drops. */
  lemma InitialContextReachable(i: nat)
    requires i < KEY_TOTAL_COUNT
    ensures Reachable(InitialContext(i)) && InitialContext(i).state == Idle
    ensures InitialContext(i).keyId != KEY_ID_3 && InitialContext(i).keyId != KEY_ID_4
  {
  }

  /** One tick keeps the invariant and the key id, the counter increment
      never wraps, and the two events come from PRESSED only: a short press
      on release, a long press when the counter reaches the threshold while
      held, which also sets the latch. */
  lemma StepKeepsReachable(k: KeyContext, level: bool)
    requires Reachable(k)
    ensures var (k', ev) := Step(k, level);
            && Reachable(k') && k'.keyId == k.keyId
            && 1 <= k'.stateDurationTicks <= KEY_LONG_PRESS_TIME_TICKS + 2
            && (ev == ShortPressed <==> k.state == Pressed && level)
            && (ev == LongPressed <==>
                  k.state == Pressed && !level && k.stateDurationTicks == KEY_LONG_PRESS_TIME_TICKS)
            && (ev == ShortPressed ==> k'.state == Idle)
            && (ev == LongPressed ==> k'.state == LongActive && k'.isLongPressDetected)
  {
  }

  /** A state outside the enumeration falls back to IDLE with its counter
      restarted, and raises nothing. */
  lemma UndefinedStateResets(k: KeyContext, level: bool)
    requires k.state.Undefined?
    ensures var (k', ev) := Step(k, level);
            k'.state == Idle && k'.stateDurationTicks == 1 && ev == NoEvent
            && k'.isLongPressDetected == k.isLongPressDetected
  {
  }

  /** A tick of the whole array keeps the invariant of every key. */
  lemma TickAllKeepsReachable(cs: seq<KeyContext>, levels: seq<bool>)
    requires |levels| == |cs|
    requires forall i :: 0 <= i < |cs| ==> Reachable(cs[i])
    ensures forall i :: 0 <= i < |cs| ==> Reachable(TickAll(cs, levels)[i])
  {
    forall i | 0 <= i < |cs|
      ensures Reachable(TickAll(cs, levels)[i])
    {
      StepKeepsReachable(cs[i], levels[i]);
    }
  }

  /** Every message a tick sends names a key of the array and the event that
      key raised on this tick, and is never an empty event. */
  lemma {:induction false} MessagesComeFromEvents(cs: seq<KeyContext>, levels: seq<bool>, queuePresent: bool)
    requires |levels| == |cs|
    ensures forall m :: m in Messages(cs, levels, queuePresent) ==>
              m.keyEvent != NoEvent &&
              exists i :: 0 <= i < |cs| && m == KeyCallBack(cs[i].keyId, Step(cs[i], levels[i]).1)
  {
    if cs != [] {
      var n := |cs| - 1;
      MessagesComeFromEvents(cs[..n], levels[..n], queuePresent);
      forall m | m in Messages(cs, levels, queuePresent)
        ensures m.keyEvent != NoEvent
        ensures exists i :: 0 <= i < |cs| && m == KeyCallBack(cs[i].keyId, Step(cs[i], levels[i]).1)
      {
        if m in Messages(cs[..n], levels[..n], queuePresent) {
          var i :| 0 <= i < n && m == KeyCallBack(cs[..n][i].keyId, Step(cs[..n][i], levels[..n][i]).1);
          assert cs[..n][i] == cs[i] && levels[..n][i] == levels[i];
        } else {
          assert m == KeyCallBack(cs[n].keyId, Step(cs[n], levels[n]).1);
        }
      }
    }
  }

  /** With the queue in place and no key carrying id 3 or 4, every event a
      tick raises reaches the queue; without the queue nothing is sent. */
  lemma {:induction false} EventsReachQueue(cs: seq<KeyContext>, levels: seq<bool>, queuePresent: bool)
    requires |levels| == |cs|
    requires forall i :: 0 <= i < |cs| ==> cs[i].keyId != KEY_ID_3 && cs[i].keyId != KEY_ID_4
    ensures !queuePresent ==> Messages(cs, levels, queuePresent) == []
    ensures queuePresent ==>
              forall i :: 0 <= i < |cs| && Step(cs[i], levels[i]).1 != NoEvent ==>
                KeyCallBack(cs[i].keyId, Step(cs[i], levels[i]).1) in Messages(cs, levels, queuePresent)
  {
    if cs != [] {
      var n := |cs| - 1;
      EventsReachQueue(cs[..n], levels[..n], queuePresent);
      if queuePresent {
        forall i | 0 <= i < |cs| && Step(cs[i], levels[i]).1 != NoEvent
          ensures KeyCallBack(cs[i].keyId, Step(cs[i], levels[i]).1) in Messages(cs, levels, queuePresent)
        {
          if i < n {
            assert cs[..n][i] == cs[i] && levels[..n][i] == levels[i];
          }
        }
      }
    }
  }

  /** One key over a run of ticks, given the sampled level of each: the final
      context and the events raised, in order. */
  function Run(k: KeyContext, levels: seq<bool>): (KeyContext, seq<KeyEvent>)
  {
    if levels == [] then (k, [])
    else
      var n := |levels| - 1;
      var r := Run(k, levels[..n]);
      var t := Step(r.0, levels[n]);
      (t.0, r.1 + (if t.1 == NoEvent then [] else [t.1]))
  }

  /** `n` ticks with the key held down (pin low). */
  function Held(n: nat): (levels: seq<bool>)
    ensures |levels| == n && forall i :: 0 <= i < n ==> !levels[i]
  {
    seq(n, _ => false)
  }

  /** Holding a key from IDLE: the first `KEY_DEBOUNCE_TIME_TICKS` ticks are
      spent debouncing, the next `KEY_LONG_PRESS_TIME_TICKS` in PRESSED, and
      from then on the key is in LONG_ACTIVE with the latch set; the only
      event of the whole hold is a single long press, raised on the tick that
      enters LONG_ACTIVE. */
  lemma {:induction false} HoldFromIdle(k: KeyContext, n: nat)
    requires Reachable(k) && k.state == Idle && n >= 1
    ensures var (k', evs) := Run(k, Held(n));
            && k'.keyId == k.keyId && Reachable(k')
            && (n <= KEY_DEBOUNCE_TIME_TICKS ==> k'.state == Debounce && k'.stateDurationTicks == n)
            && (KEY_DEBOUNCE_TIME_TICKS < n <= KEY_DEBOUNCE_TIME_TICKS + KEY_LONG_PRESS_TIME_TICKS ==>
                  k'.state == Pressed && k'.stateDurationTicks == n - KEY_DEBOUNCE_TIME_TICKS)
            && (n > KEY_DEBOUNCE_TIME_TICKS + KEY_LONG_PRESS_TIME_TICKS ==> k'.state == LongActive)
            && evs == (if n > KEY_DEBOUNCE_TIME_TICKS + KEY_LONG_PRESS_TIME_TICKS then [LongPressed] else [])
  {
    assert Held(n)[..n - 1] == Held(n - 1);
    if n > 1 {
      HoldFromIdle(k, n - 1);
      StepKeepsReachable(Run(k, Held(n - 1)).0, false);
    }
  }

  /** A whole press cycle from IDLE, held for `n` ticks and then released,
      ends in IDLE with the latch clear and raises at most one event: none
      when released while still debouncing, a short press when released from
      PRESSED, and a long press (raised while held, nothing on release) when
      held past the long-press threshold. */
  lemma {:induction false} PressCycle(k: KeyContext, n: nat)
    requires Reachable(k) && k.state == Idle
    ensures var (k', evs) := Run(k, Held(n) + [true]);
            && k'.state == Idle && !k'.isLongPressDetected && k'.keyId == k.keyId && Reachable(k')
            && evs == (if n <= KEY_DEBOUNCE_TIME_TICKS then []
                       else if n <= KEY_DEBOUNCE_TIME_TICKS + KEY_LONG_PRESS_TIME_TICKS then [ShortPressed]
                       else [LongPressed])
  {
    var levels := Held(n) + [true];
    assert levels[..n] == Held(n);
    var r := Run(k, Held(n));
    var t := Step(r.0, true);
    assert Run(k, levels) == (t.0, r.1 + (if t.1 == NoEvent then [] else [t.1]));
    if n == 0 {
      assert Held(0) == [];
    } else {
      HoldFromIdle(k, n);
      StepKeepsReachable(r.0, true);
    }
  }
}
