/** The token's operating state machine, and what each of its states says about the events that led there. */
module TokenState {

  datatype State = Booting | Idle | Authenticated | WaitingForTouch | Signing | Error

  datatype Event =
    | BootComplete
    | PinVerified
    | SessionEnded
    | SignRequested
    | TouchPressed
    | TouchTimeout
    | SignComplete
    | ErrorRaised
    | ErrorDisplayElapsed

  function OnEvent(s: State, e: Event): State {
    match (s, e)
    case (Booting, BootComplete) => Idle
    case (Authenticated, SessionEnded) => Idle
    case (WaitingForTouch, SessionEnded) => Idle
    case (Error, ErrorDisplayElapsed) => Idle
    case (Idle, PinVerified) => Authenticated
    case (Authenticated, PinVerified) => Authenticated
    case (WaitingForTouch, TouchTimeout) => Authenticated
    case (Signing, SignComplete) => Authenticated
    case (Authenticated, SignRequested) => WaitingForTouch
    case (WaitingForTouch, TouchPressed) => Signing
    case (_, ErrorRaised) => Error
    case _ => s
  }

  function Fold(events: seq<Event>): State {
    if events == [] then Booting
    else OnEvent(Fold(events[..|events| - 1]), events[|events| - 1])
  }

  ghost predicate NoneOf(events: seq<Event>, from: nat, upto: nat, bad: set<Event>) {
    forall i :: from <= i < upto && i < |events| ==> events[i] !in bad
  }

  // ---------------------------------------------------------------- the states, told from the events alone

  /** Neither booted nor failed yet. */
  ghost predicate NotYetUp(events: seq<Event>) {
    NoneOf(events, 0, |events|, {BootComplete, ErrorRaised})
  }

  ghost predicate RaisedAt(events: seq<Event>, i: nat) {
    i < |events| && events[i] == ErrorRaised && NoneOf(events, i + 1, |events|, {ErrorDisplayElapsed})
  }

  /** An error was raised and is still on display. */
  ghost predicate Failed(events: seq<Event>) {
    exists i :: RaisedAt(events, i)
  }

  ghost predicate Up(events: seq<Event>) {
    !NotYetUp(events) && !Failed(events)
  }

  /** A PIN was verified at `p`, and the session it opened is not over: no error since, and no session end that came
      outside a signature. */
  ghost predicate VerifiedAt(events: seq<Event>, p: nat)
    decreases |events|, 0
  {
    && p < |events| && events[p] == PinVerified && Up(events[..p])
    && NoneOf(events, p, |events|, {ErrorRaised})
    && forall i :: p < i < |events| && events[i] == SessionEnded ==> Signs(events[..i])
  }

  ghost predicate InSession(events: seq<Event>)
    decreases |events|, 1
  {
    exists p :: VerifiedAt(events, p)
  }

  /** A signature was requested at `r`, ready for it, and nothing ended the wait. */
  ghost predicate RequestedAt(events: seq<Event>, r: nat)
    decreases |events|, 0
  {
    && r < |events| && events[r] == SignRequested && ReadyToSign(events[..r])
    && NoneOf(events, r + 1, |events|, {SessionEnded, TouchTimeout, TouchPressed, ErrorRaised})
  }

  ghost predicate Waits(events: seq<Event>)
    decreases |events|, 1
  {
    exists r :: RequestedAt(events, r)
  }

  /** A touch at `t` ended such a wait, and the signature is not over. */
  ghost predicate TouchedAt(events: seq<Event>, t: nat)
    decreases |events|, 0
  {
    && t < |events| && events[t] == TouchPressed && Waits(events[..t])
    && NoneOf(events, t + 1, |events|, {SignComplete, ErrorRaised})
  }

  ghost predicate Signs(events: seq<Event>)
    decreases |events|, 1
  {
    exists t :: TouchedAt(events, t)
  }

  /** In session with neither a wait nor a signature under way. */
  ghost predicate ReadyToSign(events: seq<Event>)
    decreases |events|, 2
  {
    InSession(events) && !Waits(events) && !Signs(events)
  }

  // ---------------------------------------------------------------- one more event

  lemma Prefixes(before: seq<Event>, e: Event)
    ensures (before + [e])[..|before|] == before
    ensures forall i :: 0 <= i <= |before| ==> (before + [e])[..i] == before[..i]
    ensures forall i :: 0 <= i < |before| ==> (before + [e])[i] == before[i]
    ensures (before + [e])[|before|] == e && before[..|before|] == before
  {
  }

  lemma NoneOfStep(before: seq<Event>, e: Event, from: nat, bad: set<Event>)
    requires from <= |before|
    ensures NoneOf(before + [e], from, |before| + 1, bad) <==> NoneOf(before, from, |before|, bad) && e !in bad
  {
    Prefixes(before, e);
  }

  lemma UpStep(before: seq<Event>, e: Event)
    ensures NotYetUp(before + [e]) <==> NotYetUp(before) && e != BootComplete && e != ErrorRaised
    ensures Failed(before + [e]) <==> e == ErrorRaised || (Failed(before) && e != ErrorDisplayElapsed)
  {
    Prefixes(before, e);
    var events := before + [e];
    NoneOfStep(before, e, 0, {BootComplete, ErrorRaised});
    forall i: nat | i < |before|
      ensures RaisedAt(events, i) <==> RaisedAt(before, i) && e != ErrorDisplayElapsed
    {
      NoneOfStep(before, e, i + 1, {ErrorDisplayElapsed});
    }
    assert RaisedAt(events, |before|) <==> e == ErrorRaised;
    if i: nat :| RaisedAt(before, i) && e != ErrorDisplayElapsed {
      assert RaisedAt(events, i);
    }
  }

  lemma SessionStep(before: seq<Event>, e: Event)
    ensures InSession(before + [e]) <==>
            (e == PinVerified && Up(before)) || (InSession(before) && e != ErrorRaised && (e == SessionEnded ==> Signs(before)))
  {
    Prefixes(before, e);
    var events := before + [e];
    forall p: nat | p < |before|
      ensures VerifiedAt(events, p) <==> VerifiedAt(before, p) && e != ErrorRaised && (e == SessionEnded ==> Signs(before))
    {
      SessionKept(before, e, p);
    }
    assert VerifiedAt(events, |before|) <==> e == PinVerified && Up(before);
    if p: nat :| VerifiedAt(before, p) && VerifiedAt(events, p) {
    }
    if p: nat :| VerifiedAt(before, p) && e != ErrorRaised && (e == SessionEnded ==> Signs(before)) {
      assert VerifiedAt(events, p);
    }
  }

  lemma SessionKept(before: seq<Event>, e: Event, p: nat)
    requires p < |before|
    ensures VerifiedAt(before + [e], p) <==> VerifiedAt(before, p) && e != ErrorRaised && (e == SessionEnded ==> Signs(before))
  {
    Prefixes(before, e);
    NoneOfStep(before, e, p, {ErrorRaised});
    var events := before + [e];
    if VerifiedAt(events, p) {
      assert forall i :: p < i < |before| && before[i] == SessionEnded ==> events[i] == SessionEnded && Signs(events[..i]);
      assert events[|before|] == SessionEnded ==> Signs(events[..|before|]);
    }
  }

  lemma WaitStep(before: seq<Event>, e: Event)
    ensures Waits(before + [e]) <==>
            (e == SignRequested && ReadyToSign(before)) || (Waits(before) && e !in {SessionEnded, TouchTimeout, TouchPressed, ErrorRaised})
  {
    Prefixes(before, e);
    var events := before + [e];
    forall r: nat | r < |before|
      ensures RequestedAt(events, r) <==> RequestedAt(before, r) && e !in {SessionEnded, TouchTimeout, TouchPressed, ErrorRaised}
    {
      NoneOfStep(before, e, r + 1, {SessionEnded, TouchTimeout, TouchPressed, ErrorRaised});
    }
    assert RequestedAt(events, |before|) <==> e == SignRequested && ReadyToSign(before);
    if r: nat :| RequestedAt(before, r) && e !in {SessionEnded, TouchTimeout, TouchPressed, ErrorRaised} {
      assert RequestedAt(events, r);
    }
  }

  lemma SignStep(before: seq<Event>, e: Event)
    ensures Signs(before + [e]) <==> (e == TouchPressed && Waits(before)) || (Signs(before) && e !in {SignComplete, ErrorRaised})
  {
    Prefixes(before, e);
    var events := before + [e];
    forall t: nat | t < |before|
      ensures TouchedAt(events, t) <==> TouchedAt(before, t) && e !in {SignComplete, ErrorRaised}
    {
      NoneOfStep(before, e, t + 1, {SignComplete, ErrorRaised});
    }
    assert TouchedAt(events, |before|) <==> e == TouchPressed && Waits(before);
    if t: nat :| TouchedAt(before, t) && e !in {SignComplete, ErrorRaised} {
      assert TouchedAt(events, t);
    }
  }

  // ---------------------------------------------------------------- all six states

  /** The states the events alone call for. */
  ghost predicate Agrees(s: State, events: seq<Event>) {
    && (s == Booting <==> NotYetUp(events))
    && (s == Error <==> Failed(events))
    && (s == Idle <==> Up(events) && !InSession(events))
    && (s == Authenticated <==> ReadyToSign(events))
    && (s == WaitingForTouch <==> Waits(events))
    && (s == Signing <==> Signs(events))
  }

  lemma AgreesStep(s: State, before: seq<Event>, e: Event)
    requires Agrees(s, before)
    ensures Agrees(OnEvent(s, e), before + [e])
  {
    UpStep(before, e);
    SessionStep(before, e);
    WaitStep(before, e);
    SignStep(before, e);
  }

  lemma NothingYet()
    ensures !Failed([]) && !InSession([]) && !Waits([]) && !Signs([])
  {
    forall i: nat
      ensures !RaisedAt([], i) && !VerifiedAt([], i) && !RequestedAt([], i) && !TouchedAt([], i)
    {
    }
  }

  /** Every state is exactly what the events alone say: not yet up, an error on display, up without a session, in session,
      in session with an uninterrupted request, or with the touch that ended one. */
  lemma {:induction false} StatesExactly(events: seq<Event>)
    ensures Agrees(Fold(events), events)
  {
    if events == [] {
      NothingYet();
    } else {
      var before, e := events[..|events| - 1], events[|events| - 1];
      assert events == before + [e];
      StatesExactly(before);
      AgreesStep(Fold(before), before, e);
    }
  }

  lemma FindTouch(events: seq<Event>) returns (t: nat)
    requires Signs(events)
    ensures TouchedAt(events, t) && t < |events| && Waits(events[..t])
  {
    t :| TouchedAt(events, t);
  }

  lemma FindRequest(events: seq<Event>) returns (r: nat)
    requires Waits(events)
    ensures RequestedAt(events, r) && r < |events| && ReadyToSign(events[..r])
  {
    r :| RequestedAt(events, r);
  }

  lemma FindPin(events: seq<Event>) returns (p: nat)
    requires ReadyToSign(events)
    ensures VerifiedAt(events, p)
  {
    assert InSession(events);
    p :| VerifiedAt(events, p);
  }

  /** The trace of any run into `Signing`: a PIN, then a request, then a touch, with nothing in between that would have
      cancelled it. */
  lemma SigningTrace(events: seq<Event>) returns (p: nat, r: nat, t: nat)
    requires Fold(events) == Signing
    ensures p < r < t < |events|
    ensures events[p] == PinVerified && events[r] == SignRequested && events[t] == TouchPressed
    ensures NoneOf(events, p, |events|, {ErrorRaised})
    ensures NoneOf(events, r + 1, t, {SessionEnded, TouchTimeout})
    ensures NoneOf(events, t + 1, |events|, {SignComplete})
  {
    StatesExactly(events);
    t := FindTouch(events);
    var upToTouch := events[..t];
    r := FindRequest(upToTouch);
    assert upToTouch[..r] == events[..r];
    p := FindPin(events[..r]);
    assert forall i :: 0 <= i < t ==> upToTouch[i] == events[i];
    assert events[..r][p] == events[p];
    forall i | p <= i < |events|
      ensures events[i] != ErrorRaised
    {
      if i < r {
        assert events[..r][i] == events[i];
      }
    }
  }
}
