/** Two things one would expect of touch-to-sign that do not hold in every interleaving, each with the exact condition
    under which it does: that a touch follows the request it serves, and that signing ends. */
module TouchLaws {
  import opened TokenState
  import opened Bytes
  import opened StateTask
  import opened TouchToSign
  import Debounce

  // ---------------------------------------------------------------- runs from the front

  lemma {:induction false} RunFront(s: System, a: Action, rest: seq<Action>)
    ensures Run(s, [a] + rest) == Run(Step(s, a), rest)
  {
    var actions := [a] + rest;
    if rest == [] {
      assert actions[..0] == [];
      assert Run(s, []) == s;
    } else {
      RunFront(s, a, rest[..|rest| - 1]);
      assert actions[..|actions| - 1] == [a] + rest[..|rest| - 1];
    }
  }

  lemma {:induction false} RunAppend(s: System, actions: seq<Action>, a: Action)
    ensures Run(s, actions + [a]) == Step(Run(s, actions), a)
  {
    assert (actions + [a])[..|actions|] == actions;
  }

  predicate NoSample(actions: seq<Action>) {
    forall i :: 0 <= i < |actions| ==> !actions[i].SampleButton?
  }

  // ---------------------------------------------------------------- a touch and its request

  /** The state task, consuming the queue from state `s`, will take one of the first `n` presses for a confirmation. */
  predicate Pending(s: State, queue: seq<Posted>, n: nat)
    decreases |queue|
  {
    queue != [] &&
    (|| (queue[0].Press? && queue[0].number < n && s == WaitingForTouch)
     || Pending(OnEvent(s, EventOf(queue[0])), queue[1..], n))
  }

  lemma {:induction false} PendingAppend(s: State, queue: seq<Posted>, p: Posted, n: nat)
    requires p.Press? ==> p.number >= n
    ensures Pending(s, queue + [p], n) <==> Pending(s, queue, n)
    decreases |queue|
  {
    if queue == [] {
      assert (queue + [p])[1..] == [];
    } else {
      PendingAppend(OnEvent(s, EventOf(queue[0])), queue[1..], p, n);
      assert (queue + [p])[1..] == queue[1..] + [p];
    }
  }

  lemma PendingPost(s: State, queue: seq<Posted>, p: Posted, n: nat)
    requires p.Press? ==> p.number >= n
    ensures Pending(s, Post(queue, p), n) <==> Pending(s, queue, n)
  {
    PendingAppend(s, queue, p, n);
  }

  /** None of the first `n` presses is on its way to a signature, and from signature `k` on none was used. */
  ghost predicate OldPressesSpent(s: System, n: nat, k: nat) {
    && !Pending(s.task.state, s.queue, n) && TouchesNumbered(s.queue) && n <= |s.presses|
    && (s.signal.Some? ==> s.signal.value.press >= n)
    && (s.dispatch.Authorised? ==> s.dispatch.pulse.press >= n)
    && (forall i :: k <= i < |s.signatures| ==> s.signatures[i].press >= n)
  }

  lemma TakeKeepsSpent(s: System, n: nat, k: nat)
    requires OldPressesSpent(s, n, k) && s.queue != []
    ensures OldPressesSpent(Took(s), n, k)
  {
  }

  lemma PostingKeepsSpent(s: System, a: Action, n: nat, k: nat)
    requires OldPressesSpent(s, n, k) && (a.RequestSign? || a.PinAccepted? || a.TouchWaitExpires? || a.SignReturns?)
    ensures OldPressesSpent(Step(s, a), n, k)
  {
    PendingPost(s.task.state, s.queue, Plain(SignRequested), n);
    PendingPost(s.task.state, s.queue, Plain(PinVerified), n);
    PendingPost(s.task.state, s.queue, Plain(TouchTimeout), n);
    PendingPost(s.task.state, s.queue, Plain(SignComplete), n);
    PendingPost(s.task.state, Post(s.queue, Plain(SignComplete)), Plain(ErrorRaised), n);
  }

  lemma StepKeepsSpent(s: System, a: Action, n: nat, k: nat)
    requires OldPressesSpent(s, n, k)
    ensures OldPressesSpent(Step(s, a), n, k)
  {
    match a
    case TakeEvent => if s.queue != [] { TakeKeepsSpent(s, n, k); }
    case SampleButton(level) => PendingPost(s.task.state, s.queue, Press(|s.presses|), n);
    case Tick(_) =>
    case TimerExpires =>
    case TouchSeen =>
    case ChipSigns =>
    case _ => PostingKeepsSpent(s, a, n, k);
  }

  lemma {:induction false} RunKeepsSpent(s: System, actions: seq<Action>, n: nat, k: nat)
    requires OldPressesSpent(s, n, k)
    ensures OldPressesSpent(Run(s, actions), n, k)
  {
    if actions != [] {
      RunKeepsSpent(s, actions[..|actions| - 1], n, k);
      StepKeepsSpent(Run(s, actions[..|actions| - 1]), actions[|actions| - 1], n, k);
    }
  }

  /** Every signature after the first `k` is backed by a press after the first `n`. */
  predicate LaterTouches(s: System, n: nat, k: nat) {
    forall i :: k <= i < |s.signatures| ==> s.signatures[i].press >= n
  }

  /** A pending press is taken for a confirmation without another sample of the button. */
  lemma {:induction false} PendingConfirms(s: System, n: nat) returns (actions: seq<Action>)
    requires Pending(s.task.state, s.queue, n)
    ensures NoSample(actions)
    ensures var t := Run(s, actions);
            t.signal.Some? && t.signal.value.press < n && t.dispatch == s.dispatch && t.now == s.now && t.signatures == s.signatures
    decreases |s.queue|
  {
    var t := Took(s);
    if s.queue[0].Press? && s.queue[0].number < n && s.task.state == WaitingForTouch {
      actions := [TakeEvent];
      RunFront(s, TakeEvent, []);
      assert actions == [TakeEvent] + [];
    } else {
      var rest := PendingConfirms(t, n);
      RunFront(s, TakeEvent, rest);
      actions := [TakeEvent] + rest;
    }
  }

  lemma PendingSigns(s: System) returns (actions: seq<Action>)
    requires s.dispatch.Ready? && Pending(s.task.state, s.queue, |s.presses|)
    ensures NoSample(actions) && !LaterTouches(Run(Step(s, RequestSign(true)), actions), |s.presses|, |s.signatures|)
  {
    var t := Step(s, RequestSign(true));
    PendingPost(s.task.state, s.queue, Plain(SignRequested), |s.presses|);
    actions := PendingConfirms(t, |s.presses|);
    var confirmed := Run(t, actions);
    RunAppend(t, actions, TouchSeen);
    RunAppend(t, actions + [TouchSeen], ChipSigns);
    actions := actions + [TouchSeen] + [ChipSigns];
    var u := Run(t, actions);
    assert u.signatures[|s.signatures|].press == confirmed.signal.value.press;
  }

  /** From a request on, in every interleaving, every signature is backed by a touch after that request, exactly when the
      state task is not going to take a press already queued for a confirmation. Otherwise one such press signs without
      another sample of the button. */
  lemma TouchFollowsRequestExactly(s: System)
    requires TouchesNumbered(s.queue) && s.dispatch.Ready?
    ensures (forall actions :: LaterTouches(Run(Step(s, RequestSign(true)), actions), |s.presses|, |s.signatures|)) <==>
            !Pending(s.task.state, s.queue, |s.presses|)
  {
    var t, n, k := Step(s, RequestSign(true)), |s.presses|, |s.signatures|;
    if Pending(s.task.state, s.queue, n) {
      var actions := PendingSigns(s);
      assert !LaterTouches(Run(t, actions), n, k);
    } else {
      PendingPost(s.task.state, s.queue, Plain(SignRequested), n);
      PostPlain(s.queue, SignRequested);
      forall actions
        ensures LaterTouches(Run(t, actions), n, k)
      {
        RunKeepsSpent(t, actions, n, k);
      }
    }
  }

  /** In particular when no press is queued at all. */
  lemma {:induction false} NoQueuedPress(s: State, queue: seq<Posted>, n: nat)
    requires QueuedPresses(queue) == []
    ensures !Pending(s, queue, n)
    decreases |queue|
  {
    if queue != [] {
      NoQueuedPress(OnEvent(s, EventOf(queue[0])), queue[1..], n);
    }
  }

  // ---------------------------------------------------------------- what the tasks tell each other

  /** The queue holds sixteen events; the seventeenth is dropped. */
  lemma QueueHoldsSixteen(queue: seq<Posted>, p: Posted)
    ensures Post(queue, p) == if |queue| < 16 then queue + [p] else queue
  {
  }

  /** A request in session waits 30 seconds for a touch, without looking at earlier ones, and without a session not at all. */
  lemma RequestWaits(s: System)
    requires s.dispatch.Ready?
    ensures Step(s, RequestSign(true)).dispatch == Waiting(s.now + 30_000) && Step(s, RequestSign(true)).signal.None?
    ensures Step(s, RequestSign(false)) == s
  {
  }

  /** Until then a confirmation ends the wait, from then on only the timeout does. */
  lemma WaitEndsExactly(s: System)
    requires s.dispatch.Waiting?
    ensures Step(s, TouchSeen).dispatch != s.dispatch <==> s.now < s.dispatch.deadline && s.signal.Some?
    ensures s.now < s.dispatch.deadline && s.signal.Some? ==> Step(s, TouchSeen).dispatch == Authorised(s.signal.value)
    ensures Step(s, TouchWaitExpires).dispatch != s.dispatch <==> s.now >= s.dispatch.deadline
    ensures s.now >= s.dispatch.deadline ==> Step(s, TouchWaitExpires).dispatch == Ready
  {
  }

  /** The state task, with nothing else queued, after what the dispatch loop posts: booted is idle, a PIN authenticates, a
      request waits. */
  lemma PostsArrive(s: System, held: bool, now: nat)
    requires s.queue == [] && s.dispatch.Ready?
    ensures Step(Boot(held, now), TakeEvent).task.state == Idle
    ensures s.task.state == Idle ==> Step(Step(s, PinAccepted), TakeEvent).task.state == Authenticated
    ensures s.task.state == Authenticated ==> Step(Step(s, RequestSign(true)), TakeEvent).task.state == WaitingForTouch
  {
  }

  /** A timed-out wait is authenticated again. */
  lemma TimeoutArrives(s: System)
    requires s.queue == [] && s.dispatch.Waiting? && s.now >= s.dispatch.deadline && s.task.state == WaitingForTouch
    ensures Step(Step(s, TouchWaitExpires), TakeEvent).task.state == Authenticated
  {
  }

  /** With nothing queued an expired deadline ends the session, or the display of an error; during a signature it only starts
      another 30 seconds. Before its time it does nothing. */
  lemma TimerArrives(s: System)
    requires Reachable(s) && s.queue == []
    ensures s.task.session.Some? <==> s.task.state in {Authenticated, WaitingForTouch, Signing}
    ensures s.task.error.Some? <==> s.task.state == Error
    ensures var t := Step(s, TimerExpires);
            && (s.task.state in {Authenticated, WaitingForTouch} && s.task.session.value <= s.now ==> t.task == Timed(Idle, None, None))
            && (s.task.state == Signing && s.task.session.value <= s.now ==> t.task == Timed(Signing, Some(s.now + 30_000), None))
            && (s.task.state == Error && s.task.error.value <= s.now ==> t.task == Timed(Idle, None, None))
            && (s.task.session.Some? && s.now < s.task.session.value ==> t == s)
            && (s.task.error.Some? && s.now < s.task.error.value ==> t == s)
  {
    var held, now, actions :| s == Run(Boot(held, now), actions);
    EveryRunKeepsInvariant(held, now, actions);
    assert Traced(s);
    DeadlineApplies(s.task, s.now);
  }

  lemma ErrorArrives(s: System)
    requires |s.queue| == 2 && s.queue[1] == Plain(ErrorRaised)
    ensures Step(Step(s, TakeEvent), TakeEvent).task.state == Error
  {
    assert Step(s, TakeEvent).queue == [Plain(ErrorRaised)];
  }

  /** So is a completed signature; a failed one shows an error. */
  lemma ReturnArrives(s: System)
    requires s.queue == [] && s.dispatch.Returning? && s.task.state == Signing
    ensures Step(Step(s, SignReturns(true)), TakeEvent).task.state == Authenticated
    ensures Step(Step(Step(s, SignReturns(false)), TakeEvent), TakeEvent).task.state == Error
  {
    ErrorArrives(Step(s, SignReturns(false)));
  }

  function Pins(consumed: seq<Event>): nat {
    if consumed == [] then 0 else Pins(consumed[..|consumed| - 1]) + if consumed[|consumed| - 1] == PinVerified then 1 else 0
  }

  lemma PinsAppend(consumed: seq<Event>, e: Event)
    ensures Pins(consumed + [e]) == Pins(consumed) + if e == PinVerified then 1 else 0
  {
    assert (consumed + [e])[..|consumed|] == consumed;
  }

  lemma Taken(s: System) returns (t: System)
    requires Reachable(s) && s.queue != []
    ensures Reachable(t) && t == Step(s, TakeEvent) && t == Took(s)
    ensures Pins(t.consumed) == Pins(s.consumed) + if s.queue[0] == Plain(PinVerified) then 1 else 0
  {
    PinsAppend(s.consumed, EventOf(s.queue[0]));
    t := ReachableStep(s, TakeEvent);
  }

  /** Ready for a request: authenticated, nothing queued, the button up. */
  predicate AtRest(s: System) {
    s.task.state == Authenticated && s.dispatch == Ready && s.queue == [] && s.button == Debounce.Fresh(false)
  }

  lemma EnterPin() returns (s: System)
    ensures Reachable(s) && AtRest(s) && Pins(s.consumed) == 1 && s.signatures == []
  {
    s := Boot(false, 0);
    assert s == Run(s, []);
    s := Taken(s);
    s := ReachableStep(s, PinAccepted);
    s := Taken(s);
  }

  lemma RequestIsHeard(r: System) returns (s: System)
    requires Reachable(r) && AtRest(r)
    ensures Reachable(s) && s.task.state == WaitingForTouch && s.queue == [] && s.button == Debounce.Fresh(false)
    ensures Pins(s.consumed) == Pins(r.consumed) && s.signatures == r.signatures && s.dispatch == Waiting(s.now + TOUCH_TIMEOUT_MS)
  {
    s := ReachableStep(r, RequestSign(true));
    s := Taken(s);
  }

  lemma RequestAndTouch(r: System) returns (s: System)
    requires Reachable(r) && AtRest(r)
    ensures Reachable(s) && s.task.state == Signing && s.queue == [] && s.button == Debounce.Fresh(true) && Pins(s.consumed) == Pins(r.consumed)
    ensures s.signatures == r.signatures && s.signal.Some? && s.dispatch == Waiting(s.now + TOUCH_TIMEOUT_MS)
  {
    s := RequestIsHeard(r);
    s := FivePresses(s);
    s := PressTaken(s);
  }

  lemma PressTaken(r: System) returns (s: System)
    requires Reachable(r) && r.task.state == WaitingForTouch && |r.queue| == 1 && r.queue[0].Press?
    ensures Reachable(s) && s.task.state == Signing && s.queue == [] && s.signal.Some? && Pins(s.consumed) == Pins(r.consumed)
    ensures s.button == r.button && s.signatures == r.signatures && s.dispatch == r.dispatch && s.now == r.now
  {
    s := Taken(r);
  }

  lemma SignOnce(r: System) returns (s: System)
    requires Reachable(r) && AtRest(r)
    ensures Reachable(s) && s.task.state == Signing && s.queue == [] && s.button == Debounce.Fresh(true) && Pins(s.consumed) == Pins(r.consumed)
    ensures |s.signatures| == |r.signatures| + 1 && s.dispatch == Returning
  {
    s := RequestAndTouch(r);
    s := ReachableStep(s, TouchSeen);
    s := ReachableStep(s, ChipSigns);
  }

  lemma FinishOnce(r: System) returns (s: System)
    requires Reachable(r) && r.task.state == Signing && r.queue == [] && r.button == Debounce.Fresh(true) && r.dispatch == Returning
    ensures Reachable(s) && AtRest(s) && Pins(s.consumed) == Pins(r.consumed) && s.signatures == r.signatures
  {
    s := ReachableStep(r, SignReturns(true));
    s := Taken(s);
    s := FiveReleases(s);
  }

  lemma FivePresses(r: System) returns (s: System)
    requires Reachable(r) && r.button == Debounce.Fresh(false) && r.queue == []
    ensures Reachable(s) && s.button == Debounce.Fresh(true) && |s.presses| == |r.presses| + 1 && s.queue == [Press(|r.presses|)]
    ensures s == r.(button := s.button, samples := s.samples, presses := s.presses, queue := s.queue)
  {
    s := ReachableStep(r, SampleButton(true));
    s := ReachableStep(s, SampleButton(true));
    s := ReachableStep(s, SampleButton(true));
    s := ReachableStep(s, SampleButton(true));
    s := ReachableStep(s, SampleButton(true));
  }

  lemma FiveReleases(r: System) returns (s: System)
    requires Reachable(r) && r.button == Debounce.Fresh(true)
    ensures Reachable(s) && s.button == Debounce.Fresh(false)
    ensures s == r.(button := s.button, samples := s.samples, releases := s.releases)
  {
    s := ReachableStep(r, SampleButton(false));
    s := ReachableStep(s, SampleButton(false));
    s := ReachableStep(s, SampleButton(false));
    s := ReachableStep(s, SampleButton(false));
    s := ReachableStep(s, SampleButton(false));
  }

  /** A session is good for more than one signature: two, with one PIN entered. */
  lemma TwoSignaturesOnePin() returns (s: System)
    ensures Reachable(s) && |s.signatures| == 2 && Pins(s.consumed) == 1
  {
    s := EnterPin();
    s := SignOnce(s);
    s := FinishOnce(s);
    s := SignOnce(s);
  }

  // ---------------------------------------------------------------- a signature that never ends

  /** The events that leave `Signing`. */
  predicate Ends(p: Posted) {
    p == Plain(SignComplete) || p == Plain(ErrorRaised)
  }

  predicate NoEnd(queue: seq<Posted>) {
    forall i :: 0 <= i < |queue| ==> !Ends(queue[i])
  }

  /** In `Signing` with nothing left that would complete it: no ending queued, no signature under way, and no confirmation
      the dispatch loop still waits for. */
  predicate Stuck(s: System) {
    && s.task.state == Signing && NoEnd(s.queue)
    && !s.dispatch.Authorised? && !s.dispatch.Returning?
    && !(s.dispatch.Waiting? && s.now < s.dispatch.deadline && s.signal.Some?)
  }

  /** Nothing gets the token out, and nothing is signed any more. */
  lemma StuckForGood(s: System, a: Action)
    requires Stuck(s)
    ensures Stuck(Step(s, a)) && Step(s, a).signatures == s.signatures
  {
  }

  lemma {:induction false} StuckInEveryRun(s: System, actions: seq<Action>)
    requires Stuck(s)
    ensures Stuck(Run(s, actions)) && Run(s, actions).signatures == s.signatures
  {
    if actions != [] {
      StuckInEveryRun(s, actions[..|actions| - 1]);
      StuckForGood(Run(s, actions[..|actions| - 1]), actions[|actions| - 1]);
    }
  }

  /** A queued ending is reached. */
  lemma {:induction false} QueuedEndLeaves(s: System) returns (actions: seq<Action>)
    requires s.task.state == Signing && !NoEnd(s.queue)
    ensures Run(s, actions).task.state != Signing
    decreases |s.queue|
  {
    var t := Took(s);
    if Ends(s.queue[0]) {
      actions := [TakeEvent];
      RunFront(s, TakeEvent, []);
      assert actions == [TakeEvent] + [];
    } else {
      var i :| 0 <= i < |s.queue| && Ends(s.queue[i]);
      assert t.queue[i - 1] == s.queue[i];
      var rest := QueuedEndLeaves(t);
      RunFront(s, TakeEvent, rest);
      actions := [TakeEvent] + rest;
    }
  }

  /** Without one, the queue drains and leaves the rest as it is. */
  lemma {:induction false} Drain(s: System) returns (actions: seq<Action>)
    requires s.task.state == Signing && NoEnd(s.queue)
    ensures var t := Run(s, actions); t.task.state == Signing && t.queue == [] && t.dispatch == s.dispatch
    decreases |s.queue|
  {
    if s.queue == [] {
      actions := [];
      assert Run(s, []) == s;
    } else {
      var rest := Drain(Took(s));
      RunFront(s, TakeEvent, rest);
      actions := [TakeEvent] + rest;
    }
  }

  lemma UnderWayLeaves(s: System) returns (actions: seq<Action>)
    requires s.task.state == Signing && NoEnd(s.queue) && (s.dispatch.Authorised? || s.dispatch.Returning?)
    ensures Run(s, actions).task.state != Signing
  {
    var drained := Drain(s);
    var t := Run(s, drained);
    RunAppend(s, drained, SignReturns(false));
    var u := Step(t, SignReturns(false));
    assert u.queue[0] == Plain(SignComplete);
    RunAppend(s, drained + [SignReturns(false)], TakeEvent);
    actions := drained + [SignReturns(false)] + [TakeEvent];
  }

  /** `Signing` is left in some run exactly when it is not stuck. */
  lemma SigningEndsExactly(s: System)
    requires s.task.state == Signing
    ensures (forall actions :: Run(s, actions).task.state == Signing) <==> Stuck(s)
  {
    if Stuck(s) {
      forall actions
        ensures Run(s, actions).task.state == Signing
      {
        StuckInEveryRun(s, actions);
      }
    } else if !NoEnd(s.queue) {
      var actions := QueuedEndLeaves(s);
      assert Run(s, actions).task.state != Signing;
    } else if s.dispatch.Authorised? || s.dispatch.Returning? {
      var actions := UnderWayLeaves(s);
      assert Run(s, actions).task.state != Signing;
    } else {
      var rest := UnderWayLeaves(Step(s, TouchSeen));
      RunFront(s, TouchSeen, rest);
      assert Run(s, [TouchSeen] + rest).task.state != Signing;
    }
  }

  /** And it does happen: a press that the state task takes after the wait has timed out. */
  lemma StuckIsReachable() returns (s: System)
    ensures Reachable(s) && Stuck(s)
  {
    s := TouchedIsReachable();
    s := ReachableStep(s, Tick(TOUCH_TIMEOUT_MS));
    s := ReachableStep(s, TouchWaitExpires);
    assert s.queue == [Press(0), Plain(TouchTimeout)];
    s := ReachableStep(s, TakeEvent);
  }
}
