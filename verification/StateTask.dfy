/** The task that owns the token state: it consumes events or timer expirations and keeps two deadlines. */
module StateTask {
  import opened Bytes
  import opened TokenState
  import Session

  const ERROR_DISPLAY_MS: nat := 5_000
  const FAR_FUTURE_MS: nat := 3_600_000

  /** State and the two deadlines, as one value. */
  datatype Timed = Timed(state: State, session: Option<nat>, error: Option<nat>)

  const Start: Timed := Timed(Booting, None, None)

  predicate UserActive(s: State) {
    s == Authenticated || s == WaitingForTouch || s == Signing
  }

  predicate Refreshes(e: Event) {
    e == PinVerified || e == SignComplete || e == SignRequested || e == TouchPressed
  }

  /** Each deadline is armed exactly in the states it belongs to. */
  predicate ArmedExactly(t: Timed) {
    && (t.session.Some? <==> UserActive(t.state))
    && (t.error.Some? <==> t.state == Error)
  }

  function Earliest(a: Option<nat>, b: Option<nat>, now: nat): nat {
    match (a, b)
    case (Some(x), Some(y)) => if x < y then x else y
    case (Some(x), None) => x
    case (None, Some(y)) => y
    case (None, None) => now + FAR_FUTURE_MS
  }

  predicate Due(d: Option<nat>, now: nat) {
    d.Some? && d.value <= now
  }

  /** The event a timer expiration at `now` turns into. */
  function TimerEvent(t: Timed, now: nat): Event {
    if !Due(t.session, now) && Due(t.error, now) then ErrorDisplayElapsed else SessionEnded
  }

  /** The expired deadline is cleared before the event is applied. */
  function Expired(t: Timed, now: nat): Timed {
    if Due(t.session, now) then t.(session := None)
    else if Due(t.error, now) then t.(error := None)
    else t
  }

  /** One loop iteration on event `e`. */
  function Apply(t: Timed, e: Event, now: nat): Timed {
    var s := OnEvent(t.state, e);
    Timed(s,
          if !UserActive(s) then None
          else if Refreshes(e) || t.session.None? then Some(now + Session.SESSION_TIMEOUT_MS) else t.session,
          if s != Error then None
          else if t.error.None? then Some(now + ERROR_DISPLAY_MS) else t.error)
  }

  function ApplyTimer(t: Timed, now: nat): Timed {
    Apply(Expired(t, now), TimerEvent(t, now), now)
  }

  class Task {
    var state: State
    var session: Option<nat>
    var error: Option<nat>

    ghost function View(): Timed
      reads this
    {
      Timed(state, session, error)
    }

    constructor ()
      ensures View() == Start && ArmedExactly(View())
    {
      state, session, error := Booting, None, None;
    }

    method DeriveTimerEvent(now: nat) returns (e: Event)
      modifies this`session, this`error
      ensures e == TimerEvent(old(View()), now) && View() == Expired(old(View()), now)
    {
      if session.Some? && session.value <= now {
        session := None;
        return SessionEnded;
      }
      if error.Some? && error.value <= now {
        error := None;
        return ErrorDisplayElapsed;
      }
      e := SessionEnded;
    }

    method UpdateTimers(e: Event, now: nat)
      modifies this`session, this`error
      ensures ArmedExactly(View())
      ensures session == if !UserActive(state) then None
                         else if Refreshes(e) || old(session).None? then Some(now + Session.SESSION_TIMEOUT_MS) else old(session)
      ensures error == if state != Error then None
                       else if old(error).None? then Some(now + ERROR_DISPLAY_MS) else old(error)
    {
      if UserActive(state) {
        if Refreshes(e) || session.None? {
          session := Some(now + Session.SESSION_TIMEOUT_MS);
        }
      } else {
        session := None;
      }
      if state == Error {
        if error.None? {
          error := Some(now + ERROR_DISPLAY_MS);
        }
      } else {
        error := None;
      }
    }

    /** One iteration: an event from the queue, or `None` when the timer won the race. */
    method Iterate(received: Option<Event>, now: nat) returns (pulse: bool)
      modifies this
      ensures ArmedExactly(View())
      ensures View() == if received.Some? then Apply(old(View()), received.value, now) else ApplyTimer(old(View()), now)
      ensures pulse <==> state == Signing && old(state) != Signing
    {
      var e: Event;
      if received.Some? {
        e := received.value;
      } else {
        e := DeriveTimerEvent(now);
      }
      var next := OnEvent(state, e);
      pulse := false;
      if next != state {
        state := next;
        pulse := state == Signing;
      }
      UpdateTimers(e, now);
    }
  }

  /** An expiration at or after the earliest deadline finds a due deadline unless none is armed, and then the
      fallback event changes nothing. */
  lemma TimerFallbackIsIdle(t: Timed, armedAt: nat, now: nat)
    requires ArmedExactly(t) && Earliest(t.session, t.error, armedAt) <= now
    ensures t.session.None? || t.error.None?
    ensures Due(t.session, now) || Due(t.error, now) || t.state == Booting || t.state == Idle
    ensures !Due(t.session, now) && !Due(t.error, now) ==> ApplyTimer(t, now) == t
    ensures Due(t.error, now) ==> ApplyTimer(t, now).state == Idle
    ensures Due(t.session, now) && t.state != Signing ==> ApplyTimer(t, now).state == Idle
    ensures t.state == Signing && Due(t.session, now) ==> ApplyTimer(t, now) == t.(session := Some(now + 30_000))
  {
  }

  /** The task sleeps until the earlier of the armed deadlines, or an hour when none is. */
  lemma EarliestExactly(a: Option<nat>, b: Option<nat>, now: nat)
    ensures var w := Earliest(a, b, now);
            && (a.Some? ==> w <= a.value) && (b.Some? ==> w <= b.value)
            && (a.Some? || b.Some? ==> (a.Some? && w == a.value) || (b.Some? && w == b.value))
            && (a.None? && b.None? ==> w == now + 3_600_000)
  {
  }

  /** An expired deadline ends a session or an error display; during a signature it starts another 30 seconds. */
  lemma DeadlineApplies(t: Timed, now: nat)
    requires ArmedExactly(t)
    ensures t.state in {Authenticated, WaitingForTouch} && Due(t.session, now) ==> ApplyTimer(t, now) == Timed(Idle, None, None)
    ensures t.state == Signing && Due(t.session, now) ==> ApplyTimer(t, now) == Timed(Signing, Some(now + 30_000), None)
    ensures t.state == Error && Due(t.error, now) ==> ApplyTimer(t, now) == Timed(Idle, None, None)
  {
  }

  // ---------------------------------------------------------------- what the deadlines mean

  /** An event and when it was consumed. */
  datatype Heard = Heard(event: Event, at: nat)

  function After(heard: seq<Heard>): Timed {
    if heard == [] then Start else var h := heard[|heard| - 1]; Apply(After(heard[..|heard| - 1]), h.event, h.at)
  }

  /** The user was last active at `i`: a PIN, a request, a touch or a completed signature, and none of these since. */
  ghost predicate LastActive(heard: seq<Heard>, i: nat) {
    && i < |heard| && heard[i].event in {PinVerified, SignRequested, TouchPressed, SignComplete}
    && forall j :: i < j < |heard| ==> heard[j].event !in {PinVerified, SignRequested, TouchPressed, SignComplete}
  }

  lemma {:induction false} AfterIsArmed(heard: seq<Heard>)
    ensures ArmedExactly(After(heard))
  {
  }

  /** An armed session deadline is 30 seconds after the user was last active. */
  lemma {:induction false} SessionDeadline(heard: seq<Heard>) returns (i: nat)
    requires After(heard).session.Some?
    ensures LastActive(heard, i) && After(heard).session.value == heard[i].at + 30_000
  {
    var n := |heard| - 1;
    var before := heard[..n];
    if heard[n].event in {PinVerified, SignRequested, TouchPressed, SignComplete} {
      i := n;
    } else {
      AfterIsArmed(before);
      i := SessionDeadline(before);
      assert forall j :: 0 <= j < n ==> before[j] == heard[j];
    }
  }

  /** An error was raised at `i` outside an error display, and its display has not ended. */
  ghost predicate ErrorShownSince(heard: seq<Heard>, i: nat) {
    && i < |heard| && heard[i].event == ErrorRaised && After(heard[..i]).state != Error
    && forall j :: i < j < |heard| ==> heard[j].event != ErrorDisplayElapsed
  }

  /** An armed error deadline is 5 seconds after the error on display was raised. */
  lemma {:induction false} ErrorDeadline(heard: seq<Heard>) returns (i: nat)
    requires After(heard).error.Some?
    ensures ErrorShownSince(heard, i) && After(heard).error.value == heard[i].at + 5_000
  {
    var n := |heard| - 1;
    var before := heard[..n];
    AfterIsArmed(before);
    if After(before).error.None? {
      i := n;
    } else {
      i := ErrorDeadline(before);
      assert forall j :: 0 <= j < n ==> before[j] == heard[j];
      assert before[..i] == heard[..i];
    }
  }
}
