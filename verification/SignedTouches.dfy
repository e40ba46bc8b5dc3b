/** The two halves of a sign request together: the touch wait of the firmware and the calls of the service, in any
    interleaving. Calls are any that keep the service's promise `GatedCall`, which is what the dispatcher guarantees. */
module SignedTouches {
  import opened Calls
  import opened Session
  import opened TouchToSign

  /** Firmware tasks and the service's history. */
  datatype Joint = Joint(tasks: System, history: History)

  datatype Move =
    | Other(action: Action)
    | AskToSign
    | Serve(call: Call)
    | FinishSign(call: Call)

  /** Steps of the other tasks, the touch wait and the chip; the dispatch loop's own steps are the moves below. */
  predicate ByItself(a: Action) {
    !a.RequestSign? && !a.PinAccepted? && !a.SignReturns?
  }

  predicate Enabled(j: Joint, m: Move) {
    match m
    case Other(a) => ByItself(a)
    case AskToSign => j.tasks.dispatch.Ready?
    case Serve(c) => j.tasks.dispatch.Ready? && !c.request.Sign? && GatedCall(j.history, c)
    case FinishSign(c) =>
      && c.request.Sign? && GatedCall(j.history, c)
      && (if ChipSigned(c) then j.tasks.dispatch.Returning? else j.tasks.dispatch.Authorised?)
  }

  /** A move that is not enabled is a stutter. */
  function Next(j: Joint, m: Move): Joint {
    if !Enabled(j, m) then j
    else
      match m
      case Other(a) => j.(tasks := Step(j.tasks, a))
      // The request is refused before the wait when no session is active.
      case AskToSign => j.(tasks := Step(j.tasks, RequestSign(SessionAfter(j.history).IsActive(j.tasks.now))))
      case Serve(c) =>
        Joint(if c.request.VerifyPin? && c.reply.Done? then Step(j.tasks, PinAccepted) else j.tasks, j.history + [c])
      case FinishSign(c) => Joint(Step(j.tasks, SignReturns(c.reply.Signed?)), j.history + [c])
  }

  function Reach(held: bool, now: nat, moves: seq<Move>): Joint {
    if moves == [] then Joint(Boot(held, now), []) else Next(Reach(held, now, moves[..|moves| - 1]), moves[|moves| - 1])
  }

  /** The calls in which the chip signed, in order. */
  function SignedCalls(h: History): (r: seq<nat>)
    ensures forall i :: 0 <= i < |r| ==> r[i] < |h| && ChipSigned(h[r[i]])
  {
    if h == [] then []
    else
      var before := SignedCalls(h[..|h| - 1]);
      if ChipSigned(h[|h| - 1]) then before + [|h| - 1] else before
  }

  lemma ExtendSigned(h: History, c: Call)
    ensures SignedCalls(h + [c]) == SignedCalls(h) + if ChipSigned(c) then [|h|] else []
  {
    assert (h + [c])[..|h|] == h;
  }

  /** The firmware is in a reachable state, the history is gated, and the chip's signatures are those of the calls, but
      for one still on its way back. */
  ghost predicate InStep(j: Joint) {
    && Reachable(j.tasks) && Gated(j.history)
    && |j.tasks.signatures| == |SignedCalls(j.history)| + if j.tasks.dispatch.Returning? then 1 else 0
  }

  lemma CallKeepsStep(j: Joint, c: Call)
    requires InStep(j) && (Enabled(j, Serve(c)) || Enabled(j, FinishSign(c)))
    ensures Gated(j.history + [c])
    ensures |SignedCalls(j.history + [c])| == |SignedCalls(j.history)| + if ChipSigned(c) then 1 else 0
    ensures !c.request.Sign? ==> !ChipSigned(c)
  {
    ExtendGated(j.history, c);
    ExtendSigned(j.history, c);
  }

  lemma OtherKeepsStep(j: Joint, a: Action)
    requires InStep(j) && ByItself(a)
    ensures InStep(j.(tasks := Step(j.tasks, a)))
  {
    var t := ReachableStep(j.tasks, a);
  }

  lemma AskKeepsStep(j: Joint, active: bool)
    requires InStep(j) && j.tasks.dispatch.Ready?
    ensures InStep(j.(tasks := Step(j.tasks, RequestSign(active))))
  {
    var t := ReachableStep(j.tasks, RequestSign(active));
  }

  lemma ServeKeepsStep(j: Joint, c: Call)
    requires InStep(j) && Enabled(j, Serve(c))
    ensures InStep(Next(j, Serve(c)))
  {
    CallKeepsStep(j, c);
    var t := ReachableStep(j.tasks, PinAccepted);
  }

  lemma FinishKeepsStep(j: Joint, c: Call)
    requires InStep(j) && Enabled(j, FinishSign(c))
    ensures InStep(Next(j, FinishSign(c)))
  {
    CallKeepsStep(j, c);
    var t := ReachableStep(j.tasks, SignReturns(c.reply.Signed?));
  }

  lemma MoveKeepsStep(j: Joint, m: Move)
    requires InStep(j)
    ensures InStep(Next(j, m))
  {
    if Enabled(j, m) {
      match m
      case Other(a) => OtherKeepsStep(j, a);
      case AskToSign => AskKeepsStep(j, SessionAfter(j.history).IsActive(j.tasks.now));
      case Serve(c) => ServeKeepsStep(j, c);
      case FinishSign(c) => FinishKeepsStep(j, c);
    }
  }

  lemma {:induction false} EveryMoveInStep(held: bool, now: nat, moves: seq<Move>)
    ensures InStep(Reach(held, now, moves))
  {
    if moves == [] {
      assert Boot(held, now) == Run(Boot(held, now), []);
    } else {
      EveryMoveInStep(held, now, moves[..|moves| - 1]);
      MoveKeepsStep(Reach(held, now, moves[..|moves| - 1]), moves[|moves| - 1]);
    }
  }

  /** In every joint run, each signature the chip made for a call has both: a chain of activity less than 30 s apart from
      a confirmed PIN up to it, and a press of its own, later than those of all signatures before it. */
  lemma EverySignatureHasChainAndPress(held: bool, now: nat, moves: seq<Move>, i: nat) returns (chain: seq<nat>)
    requires i < |SignedCalls(Reach(held, now, moves).history)|
    ensures var j := Reach(held, now, moves);
            var n, signatures := SignedCalls(j.history)[i], j.tasks.signatures;
            && IsChain(j.history[..n], chain) && 0 <= j.history[n].at - j.history[chain[|chain| - 1]].at < 30_000
            && i < |signatures| && signatures[i].press < |j.tasks.presses|
            && forall k :: 0 <= k < i ==> signatures[k].press < signatures[i].press
  {
    var j := Reach(held, now, moves);
    EveryMoveInStep(held, now, moves);
    chain := SignatureHasChain(j.history, SignedCalls(j.history)[i]);
    var held', now', actions :| j.tasks == Run(Boot(held', now'), actions);
    EveryRunKeepsInvariant(held', now', actions);
    assert Pipeline(j.tasks)[i] == j.tasks.signatures[i].press;
    forall k | 0 <= k < i
      ensures j.tasks.signatures[k].press < j.tasks.signatures[i].press
    {
      OnePressOneSignature(held', now', actions, k, i);
    }
  }
}
