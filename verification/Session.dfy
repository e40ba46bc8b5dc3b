/** The PIN session and the chain of activity behind every signature. */
module Session {
  import opened Bytes
  import opened ChipLog
  import opened Calls

  const SESSION_TIMEOUT_MS: nat := 30_000

  datatype Session = Session(lastActivityMs: Option<nat>) {
    static function New(): Session {
      Session(None)
    }

    function Open(now: nat): Session {
      Session(Some(now))
    }

    function Close(): Session {
      Session(None)
    }

    function Touch(now: nat): Session {
      if lastActivityMs.Some? then Session(Some(now)) else this
    }

    /** Open and, by saturating subtraction, idle for less than the timeout. */
    predicate IsActive(now: nat) {
      match lastActivityMs
      case None => false
      case Some(last) => (if now >= last then now - last else 0) < SESSION_TIMEOUT_MS
    }
  }

  /** A session is active for 30 seconds after its last activity, and only if it is open. */
  lemma ActiveExactly(s: Session, now: nat)
    ensures s.IsActive(now) <==> s.lastActivityMs.Some? && now < s.lastActivityMs.value + 30_000
  {
  }

  /** Opening and touching note the time, but only an open session can be touched; closing forgets it. */
  lemma SessionMoves(s: Session, now: nat)
    ensures s.Open(now).lastActivityMs == Some(now) && s.Close().lastActivityMs == None && Session.New().lastActivityMs == None
    ensures s.Touch(now).lastActivityMs == if s.lastActivityMs.Some? then Some(now) else None
  {
  }

  // ---------------------------------------------------------------- sessions as histories

  /** A successful PIN entry. */
  predicate Opens(c: Call) {
    (c.request.VerifyPin? || c.request.SetPin?) && c.reply.Done?
  }

  /** A successful operation that needs a session and renews it. */
  predicate Renews(c: Call) {
    (c.request.Sign? && c.reply.Signed?) || (c.request.SetPuk? && c.reply.Done?)
  }

  function SessionStep(s: Session, c: Call): Session {
    if Opens(c) then s.Open(c.at)
    else if Renews(c) then s.Touch(c.at)
    else if c.request.CloseSession? then s.Close()
    else s
  }

  function SessionAfter(h: History): Session {
    if h == [] then Session.New() else SessionStep(SessionAfter(h[..|h| - 1]), h[|h| - 1])
  }

  /** The chip signed for this call, whether or not the reply got through. */
  predicate ChipSigned(c: Call) {
    c.deeds.signings != []
  }

  /** The chip signs at most once per call, only for a sign request, and exactly the slot and digest asked for; a
      signature handed out is that one. */
  predicate SignsAsAsked(c: Call) {
    && (ChipSigned(c) ==> c.request.Sign? && c.deeds.signings == [Signing(c.request.slot, c.request.digest)])
    && (c.reply.Signed? ==> && ChipSigned(c) && c.request.Sign?
                            && c.reply.signature.slot == c.request.slot && c.reply.signature.digest == c.request.digest)
  }

  predicate NeedsSession(c: Call) {
    Renews(c) || ChipSigned(c)
  }

  /** What a call must satisfy after the calls before it. */
  predicate GatedCall(h: History, c: Call) {
    && (h != [] ==> h[|h| - 1].at <= c.at)
    && (NeedsSession(c) ==> SessionAfter(h).IsActive(c.at))
    && (Opens(c) ==> c.deeds.confirmed)
    && SignsAsAsked(c)
  }

  /** What the service keeps of every history: time does not go back, signatures and renewals happen in an active
      session, and sessions are opened only by a PIN the chip confirmed. */
  ghost predicate Gated(h: History) {
    h == [] || (Gated(h[..|h| - 1]) && GatedCall(h[..|h| - 1], h[|h| - 1]))
  }

  lemma ExtendGated(h: History, c: Call)
    requires Gated(h) && GatedCall(h, c)
    ensures Gated(h + [c]) && SessionAfter(h + [c]) == SessionStep(SessionAfter(h), c)
  {
    assert (h + [c])[..|h|] == h;
  }

  lemma {:induction false} GatedAt(h: History, i: nat)
    requires Gated(h) && i < |h|
    ensures Gated(h[..i]) && GatedCall(h[..i], h[i])
  {
    var before := h[..|h| - 1];
    if i < |before| {
      GatedAt(before, i);
      assert before[..i] == h[..i];
    }
  }

  /** Indices of calls: a PIN entry, then renewals less than the timeout apart, no close since. */
  ghost predicate IsChain(h: History, chain: seq<nat>) {
    && chain != []
    && (forall k :: 0 <= k < |chain| ==> chain[k] < |h|)
    && Opens(h[chain[0]]) && h[chain[0]].deeds.confirmed
    && (forall k :: 0 < k < |chain| ==>
          && chain[k - 1] < chain[k] && Renews(h[chain[k]])
          && 0 <= h[chain[k]].at - h[chain[k - 1]].at < 30_000)
    && (forall i :: chain[0] <= i < |h| ==> !h[i].request.CloseSession?)
  }

  lemma ChainExtends(h: History, c: Call, chain: seq<nat>)
    requires IsChain(h, chain) && !c.request.CloseSession?
    ensures IsChain(h + [c], chain)
  {
    assert forall i :: 0 <= i < |h| ==> (h + [c])[i] == h[i];
  }

  lemma ChainGrows(h: History, c: Call, chain: seq<nat>)
    requires IsChain(h, chain) && Renews(c) && 0 <= c.at - h[chain[|chain| - 1]].at < 30_000
    ensures IsChain(h + [c], chain + [|h|])
  {
    ChainExtends(h, c, chain);
    var longer, grown := h + [c], chain + [|h|];
    forall k | 0 < k < |grown|
      ensures && grown[k - 1] < grown[k] && Renews(longer[grown[k]])
              && 0 <= longer[grown[k]].at - longer[grown[k - 1]].at < 30_000
    {
      if k < |chain| {
        assert grown[k] == chain[k] && grown[k - 1] == chain[k - 1];
      }
    }
  }

  /** The last activity of a session is not in the future. */
  lemma {:induction false} ActivityIsPast(h: History)
    requires Gated(h) && SessionAfter(h).lastActivityMs.Some?
    ensures h != [] && SessionAfter(h).lastActivityMs.value <= h[|h| - 1].at
  {
    var before := h[..|h| - 1];
    if SessionAfter(before).lastActivityMs.Some? {
      ActivityIsPast(before);
    }
  }

  /** An open session always has such a chain behind it, ending at its last activity. */
  lemma {:induction false} OpenSessionHasChain(h: History) returns (chain: seq<nat>)
    requires Gated(h) && SessionAfter(h).lastActivityMs.Some?
    ensures IsChain(h, chain) && h[chain[|chain| - 1]].at == SessionAfter(h).lastActivityMs.value
  {
    var n := |h| - 1;
    var before, c := h[..n], h[n];
    assert h == before + [c];
    if Opens(c) {
      chain := [n];
    } else {
      chain := OpenSessionHasChain(before);
      ActivityIsPast(before);
      if Renews(c) {
        ChainGrows(before, c, chain);
        chain := chain + [n];
      } else {
        ChainExtends(before, c, chain);
      }
    }
  }

  /** Every signature the chip makes, even one whose reply is lost, and every PUK change comes less than 30 s after the
      end of a chain of activity with gaps under 30 s that starts at a PIN the chip confirmed and is not interrupted
      by a close. */
  lemma SignatureHasChain(h: History, i: nat) returns (chain: seq<nat>)
    requires Gated(h) && i < |h| && NeedsSession(h[i])
    ensures IsChain(h[..i], chain) && 0 <= h[i].at - h[chain[|chain| - 1]].at < 30_000
    ensures Renews(h[i]) ==> IsChain(h[..i + 1], chain + [i])
  {
    GatedAt(h, i);
    chain := OpenSessionHasChain(h[..i]);
    ActivityIsPast(h[..i]);
    assert h[..i + 1] == h[..i] + [h[i]];
    if Renews(h[i]) {
      ChainGrows(h[..i], h[i], chain);
    }
  }
}
