/** Touch-to-sign as interleaved steps of four tasks: sampler, state task, dispatch loop and clock, joined by a
    bounded lossy queue and a last-write-wins signal. Every press carries its number, so that a signature can
    be traced back to the press behind it. */
module TouchToSign {
  import opened Bytes
  import opened TokenState
  import opened StateTask
  import opened Debounce

  const EVENT_QUEUE_DEPTH: nat := 16
  const TOUCH_TIMEOUT_MS: nat := 30_000

  /** A queued event; a press also carries its number. */
  datatype Posted = Plain(event: Event) | Press(number: nat)

  /** A `TOUCH_CONFIRMED` pulse: the press behind it and how many events the state task had consumed. */
  datatype Pulse = Pulse(press: nat, consumed: nat)

  datatype Dispatch =
    | Ready
    | Waiting(deadline: nat)
    | Authorised(pulse: Pulse)
    | Returning

  /** One Sign command executed by the chip. */
  datatype Signature = Signature(press: nat, consumed: nat, atSample: nat)

  datatype System = System(
    now: nat,
    button: Debounced,
    samples: nat,
    queue: seq<Posted>,
    task: Timed,
    wakeAt: nat,
    signal: Option<Pulse>,
    dispatch: Dispatch,
    held: bool,
    consumed: seq<Event>,
    presses: seq<nat>,
    releases: seq<nat>,
    signatures: seq<Signature>)

  datatype Action =
    | Tick(ms: nat)
    | SampleButton(level: bool)
    | TakeEvent
    | TimerExpires
    | RequestSign(sessionActive: bool)
    | PinAccepted
    | TouchWaitExpires
    | TouchSeen
    | ChipSigns
    | SignReturns(ok: bool)

  /** Power-on: the sampler starts from the raw level, and boot completion is the first queued event. */
  function Boot(held: bool, now: nat): System {
    System(now, Fresh(held), 0, [Plain(BootComplete)], Start, now + FAR_FUTURE_MS, None, Ready, held, [], [], [], [])
  }

  /** `post_event`: a full queue drops the newest event. */
  function Post(queue: seq<Posted>, p: Posted): seq<Posted> {
    if |queue| < EVENT_QUEUE_DEPTH then queue + [p] else queue
  }

  function EventOf(p: Posted): Event {
    match p
    case Plain(e) => e
    case Press(_) => TouchPressed
  }

  /** The sampler task. */
  function Sampled(s: System, level: bool): System {
    var t := s.(button := Debounce.Next(s.button, level), samples := s.samples + 1);
    if !Commits(s.button, level) then t
    else if level then t.(presses := s.presses + [s.samples], queue := Post(s.queue, Press(|s.presses|)))
    else t.(releases := s.releases + [s.samples])
  }

  /** One iteration of the state task with timers already brought to `task`. */
  function Iterated(s: System, task: Timed, e: Event, press: nat): System {
    var consumed := s.consumed + [e];
    s.(task := task, consumed := consumed, wakeAt := Earliest(task.session, task.error, s.now),
       signal := if task.state == Signing && s.task.state != Signing then Some(Pulse(press, |consumed|)) else s.signal)
  }

  function Took(s: System): System
    requires s.queue != []
  {
    var p := s.queue[0];
    var e := EventOf(p);
    Iterated(s.(queue := s.queue[1..]), Apply(s.task, e, s.now), e, if p.Press? then p.number else 0)
  }

  /** Every action is total: it is a stutter when its guard does not hold. */
  function Step(s: System, a: Action): System {
    match a
    case Tick(ms) => s.(now := s.now + ms)
    case SampleButton(level) => Sampled(s, level)
    case TakeEvent => if s.queue == [] then s else Took(s)
    case TimerExpires =>
      // The channel is polled first, so the timer only wins on an empty queue.
      if s.queue != [] || s.now < s.wakeAt then s
      else Iterated(s, ApplyTimer(s.task, s.now), TimerEvent(s.task, s.now), 0)
    case RequestSign(sessionActive) =>
      if !s.dispatch.Ready? || !sessionActive then s
      else s.(signal := None, queue := Post(s.queue, Plain(SignRequested)), dispatch := Waiting(s.now + TOUCH_TIMEOUT_MS))
    case PinAccepted =>
      if !s.dispatch.Ready? then s else s.(queue := Post(s.queue, Plain(PinVerified)))
    case TouchWaitExpires =>
      if !s.dispatch.Waiting? || s.now < s.dispatch.deadline then s
      else s.(queue := Post(s.queue, Plain(TouchTimeout)), dispatch := Ready)
    case TouchSeen =>
      // The timeout is polled first, so a pulse only wins before the deadline.
      if !s.dispatch.Waiting? || s.now >= s.dispatch.deadline || s.signal.None? then s
      else s.(dispatch := Authorised(s.signal.value), signal := None)
    case ChipSigns =>
      if !s.dispatch.Authorised? then s
      else
        var p := s.dispatch.pulse;
        s.(dispatch := Returning, signatures := s.signatures + [Signature(p.press, p.consumed, s.samples)])
    case SignReturns(ok) =>
      // A refusal may come before the chip signed; success cannot.
      if s.dispatch.Returning? || (s.dispatch.Authorised? && !ok) then
        var q := Post(s.queue, Plain(SignComplete));
        s.(dispatch := Ready, queue := if ok then q else Post(q, Plain(ErrorRaised)))
      else s
  }

  function Run(s: System, actions: seq<Action>): System {
    if actions == [] then s else Step(Run(s, actions[..|actions| - 1]), actions[|actions| - 1])
  }

  // ---------------------------------------------------------------- the invariant

  predicate Increasing(xs: seq<nat>, bound: nat) {
    && (forall i, j :: 0 <= i < j < |xs| ==> xs[i] < xs[j])
    && (forall i :: 0 <= i < |xs| ==> xs[i] < bound)
  }

  function SignedPresses(signatures: seq<Signature>): (r: seq<nat>)
    ensures |r| == |signatures|
    ensures forall i :: 0 <= i < |r| ==> r[i] == signatures[i].press
  {
    seq(|signatures|, i requires 0 <= i < |signatures| => signatures[i].press)
  }

  function QueuedPresses(queue: seq<Posted>): seq<nat> {
    if queue == [] then []
    else (if queue[0].Press? then [queue[0].number] else []) + QueuedPresses(queue[1..])
  }

  /** Every press still on its way to a signature, oldest first, after those already spent. */
  function Pipeline(s: System): seq<nat> {
    SignedPresses(s.signatures) +
    (if s.dispatch.Authorised? then [s.dispatch.pulse.press] else []) +
    (if s.signal.Some? then [s.signal.value.press] else []) +
    QueuedPresses(s.queue)
  }

  /** A pulse is the trace of entering `Signing` on a touch. */
  ghost predicate PulseTraced(s: System, p: Pulse) {
    && 0 < p.consumed <= |s.consumed|
    && Fold(s.consumed[..p.consumed]) == Signing
    && s.consumed[p.consumed - 1] == TouchPressed
  }

  ghost predicate Traced(s: System) {
    && s.task.state == Fold(s.consumed)
    && ArmedExactly(s.task)
    && (s.task.session.Some? || s.task.error.Some? ==> s.wakeAt == Earliest(s.task.session, s.task.error, s.now))
    && (s.signal.Some? ==> PulseTraced(s, s.signal.value))
    && (s.dispatch.Authorised? ==> PulseTraced(s, s.dispatch.pulse))
    && (forall i :: 0 <= i < |s.signatures| ==> PulseTraced(s, Pulse(s.signatures[i].press, s.signatures[i].consumed)))
  }

  /** Offset of the releases: a button held at boot is released before its first press. */
  function Offset(s: System): nat {
    if s.held then 1 else 0
  }

  /** Presses and releases alternate in sample order. */
  ghost predicate Alternating(s: System) {
    && |s.releases| == |s.presses| + Offset(s) - (if s.button.stable then 1 else 0)
    && (forall i :: 0 <= i < |s.presses| ==> s.presses[i] < s.samples)
    && (forall i :: 0 <= i < |s.releases| ==> s.releases[i] < s.samples)
    && (forall i :: 0 <= i < |s.presses| && i + Offset(s) < |s.releases| ==> s.presses[i] < s.releases[i + Offset(s)])
    && (forall i :: 0 < i < |s.presses| ==> s.releases[i - 1 + Offset(s)] < s.presses[i])
  }

  ghost predicate AfterTheirPress(s: System) {
    forall i :: 0 <= i < |s.signatures| ==>
      s.signatures[i].press < |s.presses| && s.presses[s.signatures[i].press] < s.signatures[i].atSample <= s.samples
  }

  /** Only the sampler posts touches. */
  ghost predicate TouchesNumbered(queue: seq<Posted>) {
    forall i :: 0 <= i < |queue| && queue[i].Plain? ==> queue[i].event != TouchPressed
  }

  ghost predicate Invariant(s: System) {
    && TouchesNumbered(s.queue)
    && Increasing(Pipeline(s), |s.presses|)
    && Traced(s)
    && Alternating(s)
    && AfterTheirPress(s)
  }

  // ---------------------------------------------------------------- the pipeline of presses

  lemma {:induction false} QueuedAppend(queue: seq<Posted>, p: Posted)
    ensures QueuedPresses(queue + [p]) == QueuedPresses(queue) + (if p.Press? then [p.number] else [])
  {
    if queue == [] {
      assert queue + [p] == [p] && [p][1..] == [];
    } else {
      QueuedAppend(queue[1..], p);
      assert (queue + [p])[1..] == queue[1..] + [p];
    }
  }

  lemma PostPlain(queue: seq<Posted>, e: Event)
    requires TouchesNumbered(queue) && e != TouchPressed
    ensures QueuedPresses(Post(queue, Plain(e))) == QueuedPresses(queue)
    ensures TouchesNumbered(Post(queue, Plain(e)))
  {
    QueuedAppend(queue, Plain(e));
  }

  lemma PostPress(queue: seq<Posted>, n: nat)
    requires TouchesNumbered(queue)
    ensures QueuedPresses(Post(queue, Press(n))) == QueuedPresses(queue) ||
            QueuedPresses(Post(queue, Press(n))) == QueuedPresses(queue) + [n]
    ensures TouchesNumbered(Post(queue, Press(n)))
  {
    QueuedAppend(queue, Press(n));
  }

  lemma DropMiddle(a: seq<nat>, x: seq<nat>, b: seq<nat>, bound: nat)
    requires Increasing(a + x + b, bound)
    ensures Increasing(a + b, bound)
  {
    var xs, ys := a + x + b, a + b;
    forall i, j | 0 <= i < j < |ys|
      ensures ys[i] < ys[j]
    {
      var i', j' := if i < |a| then i else i + |x|, if j < |a| then j else j + |x|;
      assert ys[i] == xs[i'] && ys[j] == xs[j'];
    }
    forall i | 0 <= i < |ys|
      ensures ys[i] < bound
    {
      assert ys[i] == xs[if i < |a| then i else i + |x|];
    }
  }

  lemma AppendNewest(xs: seq<nat>, bound: nat)
    requires Increasing(xs, bound)
    ensures Increasing(xs, bound + 1) && Increasing(xs + [bound], bound + 1)
  {
  }

  /** The part of the pipeline ahead of the signal. */
  function Ahead(s: System): seq<nat> {
    SignedPresses(s.signatures) + (if s.dispatch.Authorised? then [s.dispatch.pulse.press] else [])
  }

  function Signalled(s: System): seq<nat> {
    if s.signal.Some? then [s.signal.value.press] else []
  }

  lemma SampleKeepsPipeline(s: System, level: bool)
    requires TouchesNumbered(s.queue) && Increasing(Pipeline(s), |s.presses|)
    ensures var t := Sampled(s, level); TouchesNumbered(t.queue) && Increasing(Pipeline(t), |t.presses|)
  {
    var t := Sampled(s, level);
    if |t.presses| != |s.presses| {
      var front := Ahead(s) + Signalled(s);
      PostPress(s.queue, |s.presses|);
      AppendNewest(Pipeline(s), |s.presses|);
      assert Pipeline(s) == front + QueuedPresses(s.queue) && Pipeline(t) == front + QueuedPresses(t.queue);
      assert Pipeline(t) == Pipeline(s) || Pipeline(t) == Pipeline(s) + [|s.presses|];
    }
  }

  /** The pipeline in its three parts. */
  lemma PipelineParts(s: System)
    ensures Pipeline(s) == Ahead(s) + Signalled(s) + QueuedPresses(s.queue)
  {
  }

  lemma Regrouped(a: seq<nat>, x: seq<nat>, y: seq<nat>, b: seq<nat>, bound: nat)
    requires Increasing(a + x + (y + b), bound)
    ensures Increasing(a + (y + b), bound) && Increasing(a + x + b, bound)
  {
    DropMiddle(a, x, y + b, bound);
    assert a + x + (y + b) == (a + x) + y + b;
    DropMiddle(a + x, y, b, bound);
  }

  lemma TakenParts(s: System)
    requires s.queue != [] && TouchesNumbered(s.queue)
    ensures Ahead(Took(s)) == Ahead(s) && Took(s).presses == s.presses && TouchesNumbered(Took(s).queue)
    ensures if Took(s).task.state == Signing && s.task.state != Signing then s.queue[0].Press? && Signalled(Took(s)) == [s.queue[0].number]
            else Signalled(Took(s)) == Signalled(s)
  {
  }

  lemma Assembled(s: System, ahead: seq<nat>, signalled: seq<nat>, queued: seq<nat>)
    requires Ahead(s) == ahead && Signalled(s) == signalled && QueuedPresses(s.queue) == queued
    ensures Pipeline(s) == ahead + signalled + queued
  {
    PipelineParts(s);
  }

  lemma Associative(x: seq<nat>, y: seq<nat>, z: seq<nat>)
    ensures x + y + z == x + (y + z)
  {
  }

  /** A press that confirms overwrites the old pulse, if any; any other event is consumed without authorising anything. */
  lemma TakenPipeline(s: System, head: seq<nat>, rest: seq<nat>)
    requires s.queue != [] && TouchesNumbered(s.queue)
    requires head == (if s.queue[0].Press? then [s.queue[0].number] else []) && rest == QueuedPresses(s.queue[1..])
    ensures Pipeline(s) == Ahead(s) + Signalled(s) + (head + rest)
    ensures Pipeline(Took(s)) == Ahead(s) + (head + rest) || Pipeline(Took(s)) == Ahead(s) + Signalled(s) + rest
  {
    Assembled(s, Ahead(s), Signalled(s), head + rest);
    TakenParts(s);
    if Took(s).task.state == Signing && s.task.state != Signing {
      Assembled(Took(s), Ahead(s), head, rest);
      Associative(Ahead(s), head, rest);
    } else {
      Assembled(Took(s), Ahead(s), Signalled(s), rest);
    }
  }

  lemma TakeKeepsPipeline(s: System)
    requires s.queue != [] && TouchesNumbered(s.queue) && Increasing(Pipeline(s), |s.presses|)
    ensures TouchesNumbered(Took(s).queue) && Increasing(Pipeline(Took(s)), |Took(s).presses|)
  {
    var head, rest := if s.queue[0].Press? then [s.queue[0].number] else [], QueuedPresses(s.queue[1..]);
    TakenParts(s);
    TakenPipeline(s, head, rest);
    Regrouped(Ahead(s), Signalled(s), head, rest, |s.presses|);
  }

  lemma RequestKeepsPipeline(s: System, active: bool)
    requires TouchesNumbered(s.queue) && Increasing(Pipeline(s), |s.presses|)
    ensures var t := Step(s, RequestSign(active)); TouchesNumbered(t.queue) && Increasing(Pipeline(t), |t.presses|)
  {
    var t := Step(s, RequestSign(active));
    PostPlain(s.queue, SignRequested);
    if t != s {
      PipelineParts(s);
      PipelineParts(t);
      DropMiddle(Ahead(s), Signalled(s), QueuedPresses(s.queue), |s.presses|);
      assert Ahead(t) == Ahead(s) && Ahead(s) + [] + QueuedPresses(s.queue) == Ahead(s) + QueuedPresses(s.queue);
    }
  }

  lemma PostingKeepsPipeline(s: System, a: Action)
    requires a.PinAccepted? || a.TouchWaitExpires?
    requires TouchesNumbered(s.queue) && Increasing(Pipeline(s), |s.presses|)
    ensures var t := Step(s, a); TouchesNumbered(t.queue) && Increasing(Pipeline(t), |t.presses|)
  {
    var t := Step(s, a);
    PostPlain(s.queue, PinVerified);
    PostPlain(s.queue, TouchTimeout);
    PipelineParts(s);
    PipelineParts(t);
    assert Ahead(t) == Ahead(s) && Signalled(t) == Signalled(s);
  }

  lemma SigningKeepsPipeline(s: System, a: Action)
    requires a.TouchSeen? || a.ChipSigns?
    requires Increasing(Pipeline(s), |s.presses|)
    ensures var t := Step(s, a); t.queue == s.queue && Increasing(Pipeline(t), |t.presses|)
  {
    var t := Step(s, a);
    if a.ChipSigns? && t != s {
      assert SignedPresses(t.signatures) == SignedPresses(s.signatures) + [s.dispatch.pulse.press];
    }
    assert Pipeline(t) == Pipeline(s);
  }

  /** Forgetting an authorisation only shortens the pipeline. */
  lemma RetireKeepsPipeline(s: System, t: System)
    requires t.signatures == s.signatures && t.signal == s.signal && !t.dispatch.Authorised?
    requires QueuedPresses(t.queue) == QueuedPresses(s.queue) && t.presses == s.presses
    requires Increasing(Pipeline(s), |s.presses|)
    ensures Increasing(Pipeline(t), |t.presses|)
  {
    var spent, pending := SignedPresses(s.signatures), if s.dispatch.Authorised? then [s.dispatch.pulse.press] else [];
    var behind := Signalled(s) + QueuedPresses(s.queue);
    assert Pipeline(s) == spent + pending + behind;
    DropMiddle(spent, pending, behind, |s.presses|);
    assert Pipeline(t) == spent + behind;
  }

  lemma ReturnKeepsPipeline(s: System, ok: bool)
    requires TouchesNumbered(s.queue) && Increasing(Pipeline(s), |s.presses|)
    ensures var t := Step(s, SignReturns(ok)); TouchesNumbered(t.queue) && Increasing(Pipeline(t), |t.presses|)
  {
    var t := Step(s, SignReturns(ok));
    if t != s {
      PostPlain(s.queue, SignComplete);
      PostPlain(Post(s.queue, Plain(SignComplete)), ErrorRaised);
      RetireKeepsPipeline(s, t);
    }
  }

  // ---------------------------------------------------------------- traces, alternation, order

  lemma PulseStays(s: System, t: System, p: Pulse, e: Event)
    requires PulseTraced(s, p) && t.consumed == s.consumed + [e]
    ensures PulseTraced(t, p)
  {
    assert t.consumed[..p.consumed] == s.consumed[..p.consumed];
  }

  lemma IterationKeepsTraces(s: System, task: Timed, e: Event, press: nat)
    requires Traced(s)
    requires task.state == OnEvent(s.task.state, e) && ArmedExactly(task)
    ensures Traced(Iterated(s, task, e, press))
  {
    var t := Iterated(s, task, e, press);
    assert t.consumed[..|s.consumed|] == s.consumed;
    if s.signal.Some? {
      PulseStays(s, t, s.signal.value, e);
    }
    if s.dispatch.Authorised? {
      PulseStays(s, t, s.dispatch.pulse, e);
    }
    forall i | 0 <= i < |s.signatures|
      ensures PulseTraced(t, Pulse(s.signatures[i].press, s.signatures[i].consumed))
    {
      PulseStays(s, t, Pulse(s.signatures[i].press, s.signatures[i].consumed), e);
    }
    if t.task.state == Signing && s.task.state != Signing {
      assert t.consumed[..|t.consumed|] == t.consumed;
    }
  }

  /** Steps that consume no event keep every trace. */
  lemma QuietKeepsTraces(s: System, a: Action)
    requires Traced(s) && !a.TakeEvent? && !a.TimerExpires?
    ensures Traced(Step(s, a))
  {
    StateTaskOwnsState(s, a);
    if !a.Tick? {
      TracesCarryOver(s, Step(s, a));
    }
  }

  lemma TracesCarryOver(s: System, t: System)
    requires Traced(s) && t.consumed == s.consumed && t.task == s.task && t.wakeAt == s.wakeAt && t.now == s.now
    requires t.signal.None? || t.signal == s.signal
    requires t.dispatch.Authorised? ==> t.dispatch == s.dispatch || s.signal == Some(t.dispatch.pulse)
    requires t.signatures == s.signatures ||
             (s.dispatch.Authorised? && |t.signatures| == |s.signatures| + 1 && t.signatures[..|s.signatures|] == s.signatures &&
              t.signatures[|s.signatures|] == Signature(s.dispatch.pulse.press, s.dispatch.pulse.consumed, s.samples))
    ensures Traced(t)
  {
    forall i | 0 <= i < |t.signatures|
      ensures PulseTraced(t, Pulse(t.signatures[i].press, t.signatures[i].consumed))
    {
      if i < |s.signatures| {
        assert t.signatures[i] == t.signatures[..|s.signatures|][i];
        assert PulseTraced(s, Pulse(s.signatures[i].press, s.signatures[i].consumed));
      }
    }
  }

  /** Only the state task consumes events; the others hand pulses on or drop them. */
  lemma StateTaskOwnsState(s: System, a: Action)
    requires !a.TakeEvent? && !a.TimerExpires?
    ensures var t := Step(s, a);
            && t.consumed == s.consumed && t.task == s.task && t.wakeAt == s.wakeAt && (!a.Tick? ==> t.now == s.now)
            && (t.signal.None? || t.signal == s.signal)
            && (t.dispatch.Authorised? ==> t.dispatch == s.dispatch || s.signal == Some(t.dispatch.pulse))
            && (t.signatures == s.signatures ||
                (s.dispatch.Authorised? && |t.signatures| == |s.signatures| + 1 && t.signatures[..|s.signatures|] == s.signatures &&
                 t.signatures[|s.signatures|] == Signature(s.dispatch.pulse.press, s.dispatch.pulse.consumed, s.samples)))
  {
  }

  lemma TakeKeepsTraces(s: System)
    requires Traced(s) && s.queue != []
    ensures Traced(Took(s))
  {
    var p := s.queue[0];
    var popped := s.(queue := s.queue[1..]);
    assert Traced(popped) by {
      forall i | 0 <= i < |popped.signatures|
        ensures PulseTraced(popped, Pulse(popped.signatures[i].press, popped.signatures[i].consumed))
      {
        assert PulseTraced(s, Pulse(s.signatures[i].press, s.signatures[i].consumed));
      }
    }
    IterationKeepsTraces(popped, Apply(s.task, EventOf(p), s.now), EventOf(p), if p.Press? then p.number else 0);
  }

  lemma StepKeepsTraces(s: System, a: Action)
    requires Traced(s)
    ensures Traced(Step(s, a))
  {
    if a.TakeEvent? {
      if s.queue != [] {
        TakeKeepsTraces(s);
      }
    } else if a.TimerExpires? {
      if Step(s, a) != s {
        IterationKeepsTraces(s, ApplyTimer(s.task, s.now), TimerEvent(s.task, s.now), 0);
      }
    } else {
      QuietKeepsTraces(s, a);
    }
  }

  lemma PressKeepsAlternation(s: System)
    requires Alternating(s) && Commits(s.button, true)
    ensures Alternating(Sampled(s, true))
  {
    assert !s.button.stable && |s.releases| == |s.presses| + Offset(s);
  }

  lemma ReleaseKeepsAlternation(s: System)
    requires Alternating(s) && Commits(s.button, false)
    ensures Alternating(Sampled(s, false))
  {
    assert s.button.stable && |s.releases| == |s.presses| + Offset(s) - 1;
  }

  lemma SampleKeepsAlternation(s: System, level: bool)
    requires Alternating(s)
    ensures Alternating(Sampled(s, level))
  {
    if Commits(s.button, level) {
      if level {
        PressKeepsAlternation(s);
      } else {
        ReleaseKeepsAlternation(s);
      }
    }
  }

  lemma StepKeepsAlternation(s: System, a: Action)
    requires Alternating(s)
    ensures Alternating(Step(s, a))
  {
    if a.SampleButton? {
      SampleKeepsAlternation(s, a.level);
    } else {
      SamplerOwnsButton(s, a);
    }
  }

  /** Only the sampler touches the button's record. */
  lemma SamplerOwnsButton(s: System, a: Action)
    requires !a.SampleButton?
    ensures var t := Step(s, a);
            && t.button == s.button && t.samples == s.samples && t.held == s.held
            && t.presses == s.presses && t.releases == s.releases
  {
  }

  lemma StepKeepsOrder(s: System, a: Action)
    requires Increasing(Pipeline(s), |s.presses|) && Alternating(s) && AfterTheirPress(s)
    ensures AfterTheirPress(Step(s, a))
  {
    if a.ChipSigns? && s.dispatch.Authorised? {
      var n := |s.signatures|;
      assert Pipeline(s)[n] == s.dispatch.pulse.press;
    }
  }

  lemma StepKeepsInvariant(s: System, a: Action)
    requires Invariant(s)
    ensures Invariant(Step(s, a))
  {
    StepKeepsTraces(s, a);
    StepKeepsAlternation(s, a);
    StepKeepsOrder(s, a);
    match a
    case Tick(_) => assert Pipeline(Step(s, a)) == Pipeline(s);
    case SampleButton(level) => SampleKeepsPipeline(s, level);
    case TakeEvent => if s.queue != [] { TakeKeepsPipeline(s); }
    case TimerExpires => assert Pipeline(Step(s, a)) == Pipeline(s);
    case SignReturns(ok) => ReturnKeepsPipeline(s, ok);
    case TouchSeen => SigningKeepsPipeline(s, a);
    case ChipSigns => SigningKeepsPipeline(s, a);
    case RequestSign(active) => RequestKeepsPipeline(s, active);
    case _ => PostingKeepsPipeline(s, a);
  }

  lemma BootInvariant(held: bool, now: nat)
    ensures Invariant(Boot(held, now))
  {
    var s := Boot(held, now);
    assert QueuedPresses(s.queue) == [] by {
      assert s.queue[1..] == [];
    }
    PipelineParts(s);
    assert Pipeline(s) == [];
    assert Traced(s) && Alternating(s) && AfterTheirPress(s);
  }

  lemma {:induction false} EveryRunKeepsInvariant(held: bool, now: nat, actions: seq<Action>)
    ensures Invariant(Run(Boot(held, now), actions))
  {
    if actions == [] {
      BootInvariant(held, now);
    } else {
      EveryRunKeepsInvariant(held, now, actions[..|actions| - 1]);
      StepKeepsInvariant(Run(Boot(held, now), actions[..|actions| - 1]), actions[|actions| - 1]);
    }
  }

  // ---------------------------------------------------------------- the theorems

  /** In every interleaving, signatures are backed by distinct presses in order; each press precedes its
      signature, and between the presses of two signatures the button was released. */
  lemma OnePressOneSignature(held: bool, now: nat, actions: seq<Action>, i: nat, j: nat)
    requires i < j < |Run(Boot(held, now), actions).signatures|
    ensures var s := Run(Boot(held, now), actions);
            var p, q := s.signatures[i].press, s.signatures[j].press;
            && p < q < |s.presses|
            && s.presses[p] < s.signatures[i].atSample && s.presses[q] < s.signatures[j].atSample
            && exists r :: 0 <= r < |s.releases| && s.presses[p] < s.releases[r] < s.presses[q]
  {
    var s := Run(Boot(held, now), actions);
    EveryRunKeepsInvariant(held, now, actions);
    var pipe := Pipeline(s);
    assert pipe[i] == s.signatures[i].press && pipe[j] == s.signatures[j].press;
    var q := s.signatures[j].press;
    ReleasedBetween(s, s.signatures[i].press, q);
    assert s.presses[s.signatures[i].press] < s.releases[q - 1 + Offset(s)] < s.presses[q];
  }

  lemma {:induction false} ReleasedBetween(s: System, p: nat, q: nat)
    requires Alternating(s) && p < q < |s.presses|
    ensures 0 <= q - 1 + Offset(s) < |s.releases|
    ensures s.presses[p] < s.releases[q - 1 + Offset(s)] < s.presses[q]
    decreases q
  {
    if p < q - 1 {
      ReleasedBetween(s, p, q - 1);
    }
  }

  /** So signatures never outnumber presses. */
  lemma SignaturesNeverOutnumberPresses(held: bool, now: nat, actions: seq<Action>)
    ensures var s := Run(Boot(held, now), actions); |s.signatures| <= |s.presses|
  {
    var s := Run(Boot(held, now), actions);
    EveryRunKeepsInvariant(held, now, actions);
    IncreasingIsShort(Pipeline(s), |s.presses|);
  }

  lemma {:induction false} IncreasingIsShort(xs: seq<nat>, bound: nat)
    requires Increasing(xs, bound)
    ensures |xs| <= bound
  {
    if xs != [] {
      var n := |xs| - 1;
      IncreasingIsShort(xs[..n], xs[n]);
    }
  }

  /** Every signature follows, in the events the state task consumed before it, a verified PIN, a sign request
      and a touch, with no error, session end or touch timeout cancelling them. */
  lemma EverySignatureWasRequested(held: bool, now: nat, actions: seq<Action>, i: nat)
    returns (pin: nat, request: nat, touch: nat)
    requires i < |Run(Boot(held, now), actions).signatures|
    ensures var s := Run(Boot(held, now), actions);
            var n := s.signatures[i].consumed;
            && pin < request < touch < n <= |s.consumed|
            && s.consumed[pin] == PinVerified && s.consumed[request] == SignRequested && s.consumed[touch] == TouchPressed
            && NoneOf(s.consumed, pin, n, {ErrorRaised})
            && NoneOf(s.consumed, request + 1, touch, {SessionEnded, TouchTimeout})
            && NoneOf(s.consumed, touch + 1, n, {SignComplete})
  {
    var s := Run(Boot(held, now), actions);
    EveryRunKeepsInvariant(held, now, actions);
    var n := s.signatures[i].consumed;
    assert PulseTraced(s, Pulse(s.signatures[i].press, n));
    pin, request, touch := SigningTrace(s.consumed[..n]);
    assert forall k :: 0 <= k < n ==> s.consumed[..n][k] == s.consumed[k];
  }

  /** In every reachable state the deadlines are armed exactly where they belong, and a timer expiration that
      matches no deadline only happens in `Booting` or `Idle`, where it changes nothing. */
  lemma TimersInEveryRun(held: bool, now: nat, actions: seq<Action>)
    ensures var s := Run(Boot(held, now), actions);
            var t := Step(s, TimerExpires);
            && ArmedExactly(s.task)
            && (s.task.session.None? || s.task.error.None?)
            && (t != s && !Due(s.task.session, s.now) && !Due(s.task.error, s.now) ==>
                  (s.task.state == Booting || s.task.state == Idle) && t.task == s.task && t.signal == s.signal)
  {
    var s := Run(Boot(held, now), actions);
    EveryRunKeepsInvariant(held, now, actions);
  }

  // ---------------------------------------------------------------- two concrete runs

  ghost predicate Reachable(s: System) {
    exists held, now, actions :: s == Run(Boot(held, now), actions)
  }

  lemma ReachableStep(s: System, a: Action) returns (t: System)
    requires Reachable(s)
    ensures Reachable(t) && t == Step(s, a)
  {
    var held, now, actions :| s == Run(Boot(held, now), actions);
    assert (actions + [a])[..|actions|] == actions;
    assert Step(s, a) == Run(Boot(held, now), actions + [a]);
    t := Step(s, a);
  }

  /** Booted, PIN entered, signing requested. */
  lemma RequestedIsReachable() returns (s: System)
    ensures Reachable(s) && s.task.state == Authenticated && s.queue == [Plain(SignRequested)]
    ensures s.dispatch == Waiting(TOUCH_TIMEOUT_MS) && s.button == Fresh(false) && s.now == 0
    ensures s.presses == [] && s.signatures == [] && s.signal == None
  {
    s := Boot(false, 0);
    assert s == Run(s, []);
    s := ReachableStep(s, TakeEvent);
    s := ReachableStep(s, PinAccepted);
    assert s.queue == [Plain(PinVerified)];
    s := ReachableStep(s, TakeEvent);
    s := ReachableStep(s, RequestSign(true));
  }

  /** Five pressed samples make a press. */
  lemma PressIsReachable(r: System) returns (s: System)
    requires Reachable(r) && r.button == Fresh(false) && r.presses == [] && |r.queue| < EVENT_QUEUE_DEPTH
    ensures Reachable(s)
    ensures s == r.(button := s.button, samples := s.samples, presses := s.presses, queue := r.queue + [Press(0)]) && |s.presses| == 1
  {
    s := ReachableStep(r, SampleButton(true));
    s := ReachableStep(s, SampleButton(true));
    s := ReachableStep(s, SampleButton(true));
    s := ReachableStep(s, SampleButton(true));
    s := ReachableStep(s, SampleButton(true));
  }

  lemma TouchedIsReachable() returns (s: System)
    ensures Reachable(s) && s.task.state == WaitingForTouch && s.queue == [Press(0)] && |s.presses| == 1
    ensures s.dispatch == Waiting(TOUCH_TIMEOUT_MS) && s.now == 0 && s.signatures == []
  {
    s := RequestedIsReachable();
    s := ReachableStep(s, TakeEvent);
    s := PressIsReachable(s);
  }

  /** A touched request signs: the theorems above are not vacuous. */
  lemma ASignatureIsReachable() returns (s: System)
    ensures Reachable(s) && |s.signatures| == 1 == |s.presses|
  {
    s := TouchedIsReachable();
    s := ReachableStep(s, TakeEvent);
    s := ReachableStep(s, TouchSeen);
    s := ReachableStep(s, ChipSigns);
  }

  /** A request that was touched but timed out before the state task got to run. */
  lemma LeftoverIsReachable() returns (s: System)
    ensures Reachable(s) && s.dispatch == Ready && s.task.state == Authenticated && s.signatures == []
    ensures s.queue == [Plain(SignRequested), Press(0), Plain(TouchTimeout)]
  {
    s := RequestedIsReachable();
    s := PressIsReachable(s);
    s := ReachableStep(s, Tick(TOUCH_TIMEOUT_MS));
    s := ReachableStep(s, TouchWaitExpires);
  }

  /** What does not hold in every interleaving is that the touch follows the request it serves: a press left in the
      queue by a request that timed out can authorise the next one, with no further sample of the button. */
  lemma TouchMayPrecedeRequest() returns (s: System, t: System)
    ensures Reachable(s) && s.dispatch == Ready && s.signatures == []
    ensures t == Run(s, [RequestSign(true), TakeEvent, TakeEvent, TouchSeen, ChipSigns])
    ensures |t.signatures| == 1 && t.samples == s.samples
  {
    s := LeftoverIsReachable();
    var requested := Step(s, RequestSign(true));
    var waiting := Step(requested, TakeEvent);
    assert waiting.task.state == WaitingForTouch && waiting.queue[0] == Press(0);
    var signing := Step(waiting, TakeEvent);
    assert signing.signal.Some? && signing.dispatch == requested.dispatch && signing.now == s.now;
    t := RunFive(s, RequestSign(true), TakeEvent, TakeEvent, TouchSeen, ChipSigns);
  }

  lemma RunFive(s: System, a: Action, b: Action, c: Action, d: Action, e: Action) returns (t: System)
    ensures t == Run(s, [a, b, c, d, e]) == Step(Step(Step(Step(Step(s, a), b), c), d), e)
  {
    assert [a, b, c, d, e][..4] == [a, b, c, d] && [a, b, c, d][..3] == [a, b, c];
    assert [a, b, c][..2] == [a, b] && [a, b][..1] == [a] && [a][..0] == [];
    assert Run(s, [a]) == Step(Run(s, []), a);
    assert Run(s, [a, b]) == Step(Run(s, [a]), b);
    assert Run(s, [a, b, c]) == Step(Run(s, [a, b]), c);
    assert Run(s, [a, b, c, d]) == Step(Run(s, [a, b, c]), d);
    t := Run(s, [a, b, c, d, e]);
  }
}
