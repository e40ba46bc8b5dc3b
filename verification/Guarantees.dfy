/** What follows for every run of the dispatcher: any requests, any lost commands, any clock that does not go back. The
    last section adds what holds when nothing is lost. */
module Guarantees {
  import opened CounterEncoding
  import opened RetryCounter
  import opened Messages
  import opened ChipLog
  import opened Atecc
  import opened Calls
  import opened Session
  import opened Token
  import opened TokenLaws
  import opened Credentials
  import opened Dispatch

  // ---------------------------------------------------------------- guessing

  /** In any stretch of a run in which a counter is not taken past an exhausted batch, the chip tests at most 5 PINs, or 10
      PUKs, right ones included; so between two refreshes no more than that are wrong. */
  lemma EveryRunBoundsGuessing(d: Dispatcher, from: nat, upto: nat, id: CounterId)
    requires d.Valid() && from <= upto <= |d.service.atecc.log|
    requires forall i :: from <= i < upto ==> !Refreshes(d.service.atecc.log[i], id)
    ensures Tests(d.service.atecc.log, from, upto, id) <= Batch(id)
  {
    d.service.atecc.RecordTells();
    BoundedGuessing(d.service.atecc.start, d.service.atecc.log, from, upto, id);
  }

  /** A counter leaves an exhausted batch only by an increment, in a call that matched a code or found both batches
      exhausted; and the log accounts for the counters the chip holds. */
  lemma EveryRunGuardsExhaustion(d: Dispatcher, i: nat, id: CounterId)
    requires d.Valid() && i < |d.service.atecc.log|
    requires Ticks(d.service.atecc.log[i], id) == 1
    requires Exhausted(CountsAfter(d.service.atecc.start, d.service.atecc.log[..i]).Get(id), id)
    ensures d.service.atecc.log[i].Incremented? && Entitled(d.service.atecc.log[..i])
    ensures CountsAfter(d.service.atecc.start, d.service.atecc.log) == d.service.atecc.chip.memory.counts
  {
    d.service.atecc.RecordTells();
    ExhaustedLeavesOnlyByRefresh(d.service.atecc.start, d.service.atecc.log, i, id);
  }

  // ---------------------------------------------------------------- signing

  lemma {:induction false} RecordedAt(h: History, i: nat)
    requires i < |h|
    ensures |Recorded(h)| == |h| + 1 && Recorded(h)[i + 1] == h[i].deeds
  {
    if |h| > 1 {
      RecordedAt(h[..|h| - 1], if i < |h| - 1 then i else 0);
    }
  }

  /** Behind every signature the chip made, acknowledged or not, stands a chain of calls less than 30 s apart from a PIN
      entry on, and in that first call the chip itself confirmed the PIN. */
  lemma EverySignatureHasChain(d: Dispatcher, i: nat) returns (chain: seq<nat>, proof: nat)
    requires d.Valid() && i < |d.history| && ChipSigned(d.history[i])
    ensures IsChain(d.history[..i], chain)
    ensures 0 <= d.history[i].at - d.history[chain[|chain| - 1]].at < 30_000
    ensures HappensInCall(d.service.atecc.log, proof, chain[0] + 1, ConfirmsPin)
  {
    var h, log := d.history, d.service.atecc.log;
    d.service.atecc.RecordTells();
    d.Meaning();
    chain := SignatureHasChain(h, i);
    RecordedAt(h, chain[0]);
    ConfirmedMeansMatchingPin(log, chain[0] + 1);
    assert SummaryAfter(log).All() == Recorded(h);
    assert h[..i][chain[0]] == h[chain[0]];
    proof :| HappensInCall(log, proof, chain[0] + 1, ConfirmsPin);
  }

  function SignRequests(h: History): nat {
    if h == [] then 0 else SignRequests(h[..|h| - 1]) + if h[|h| - 1].request.Sign? then 1 else 0
  }

  lemma RecordedPrefix(h: History)
    requires h != []
    ensures SignedIn(Recorded(h)) == SignedIn(Recorded(h[..|h| - 1])) + h[|h| - 1].deeds.signings
  {
    assert Recorded(h)[..|Recorded(h)| - 1] == Recorded(h[..|h| - 1]);
  }

  lemma {:induction false} SignedNoMoreThanAsked(h: History)
    requires Gated(h)
    ensures |SignedIn(Recorded(h))| <= SignRequests(h)
  {
    if h == [] {
      assert SignedIn([NOTHING]) == [];
    } else {
      SignedNoMoreThanAsked(h[..|h| - 1]);
      RecordedPrefix(h);
    }
  }

  lemma {:induction false} SignedWasAsked(h: History, s: Signing) returns (i: nat)
    requires Gated(h) && s in SignedIn(Recorded(h))
    ensures i < |h| && h[i].request == Sign(s.slot, s.digest)
  {
    if h == [] {
      assert false;
    } else {
      RecordedPrefix(h);
      i := |h| - 1;
      if s !in h[i].deeds.signings {
        i := SignedWasAsked(h[..i], s);
      }
    }
  }

  /** The chip signs no more often than it was asked to, and never anything but a slot and digest that were asked for. */
  lemma EverySignatureWasAsked(d: Dispatcher, s: Signing)
    requires d.Valid()
    ensures |AllSignings(d.service.atecc.log)| <= SignRequests(d.history)
    ensures s in AllSignings(d.service.atecc.log) ==>
              exists i :: 0 <= i < |d.history| && d.history[i].request == Sign(s.slot, s.digest)
  {
    d.service.atecc.RecordTells();
    SummaryKeepsEverySignature(d.service.atecc.log);
    d.Meaning();
    SignedNoMoreThanAsked(d.history);
    if s in AllSignings(d.service.atecc.log) {
      var i := SignedWasAsked(d.history, s);
    }
  }

  // ---------------------------------------------------------------- the bus

  lemma EveryFrameFollowsWake(d: Dispatcher, i: nat)
    requires d.Valid() && i < |d.service.atecc.bus| && d.service.atecc.bus[i] == Frame
    ensures exists w :: 0 <= w < i && d.service.atecc.bus[w] == Woken &&
                        forall k :: w < k < i ==> d.service.atecc.bus[k] == Frame
  {
    FrameFollowsWake(d.service.atecc.bus, i);
  }

  // ---------------------------------------------------------------- codes

  /** On a chip provisioned as a token, in every run and whatever is lost: the chip always holds the codes of the
      current belief, a PIN that verifies is the current one, and codes change only as `CodeStep` allows. */
  lemma EveryRunAuthenticates(d: Dispatcher, i: nat)
    requires d.Valid() && d.Trusted() && i < |d.history|
    ensures d.beliefs[0] == d.origin.Codes() && |d.beliefs| == |d.history| + 1
    ensures CodeStep(d.beliefs[i], d.history[i], d.beliefs[i + 1])
    ensures Opens(d.history[i]) ==>
              d.beliefs[i].pin == if d.history[i].request.VerifyPin? then d.history[i].request.pin else d.history[i].request.oldPin
    ensures var ch, k := d.service.atecc, Latest(d.beliefs);
            && 5 in ch.chip.memory.slots && ch.chip.memory.slots[5] == PinHash(ch.sha, ch.serial, k.pin)
            && 6 in ch.chip.memory.slots && ch.chip.memory.slots[6] == PukHash(ch.sha, ch.serial, k.puk)
            && 8 in ch.chip.memory.slots && ch.chip.memory.slots[8] == k.ioKey
  {
    d.Meaning();
    UpheldAt(d.beliefs, d.history, i);
    RemembersMeans(d.service.atecc.sha, d.service.atecc.serial, d.service.atecc.chip.memory.slots, Latest(d.beliefs));
  }

  /** And a PIN other than the provisioned one was set by a call that gave the right PIN or PUK, or by an emergency reset
      that found both batches exhausted, each with the I/O key, and has been the PIN since. */
  lemma EveryPinHasAuthor(d: Dispatcher) returns (i: nat)
    requires d.Valid() && d.Trusted() && Latest(d.beliefs).pin != d.origin.pin
    ensures i < |d.history| < |d.beliefs|
    ensures Authorises(d.beliefs[i], d.history[i], Latest(d.beliefs).pin)
    ensures forall j :: i < j <= |d.history| ==> d.beliefs[j].pin == Latest(d.beliefs).pin
  {
    d.Meaning();
    i := PinHasAuthor(d.beliefs, d.history);
  }

  /** The same for the PUK. */
  lemma EveryPukHasAuthor(d: Dispatcher) returns (i: nat)
    requires d.Valid() && d.Trusted() && Latest(d.beliefs).puk != d.origin.puk
    ensures i < |d.history| < |d.beliefs|
    ensures AuthorisesPuk(d.beliefs[i], d.history[i], Latest(d.beliefs).puk)
    ensures forall j :: i < j <= |d.history| ==> d.beliefs[j].puk == Latest(d.beliefs).puk
  {
    d.Meaning();
    i := PukHasAuthor(d.beliefs, d.history);
  }

  /** A call recorded as having found a batch exhausted read its counter at a multiple of the batch, by the chip's own
      log, and that reading was the counter's value. */
  lemma SpentInEveryRun(d: Dispatcher, i: nat, id: CounterId) returns (n: nat)
    requires d.Valid() && i < |d.history| && id in d.history[i].deeds.spent
    ensures HappensInCall(d.service.atecc.log, n, i + 1, ExhaustionOf(id))
    ensures Exhausted(CountsAfter(d.service.atecc.start, d.service.atecc.log[..n]).Get(id), id)
  {
    var log := d.service.atecc.log;
    d.service.atecc.RecordTells();
    RecordedAt(d.history, i);
    SpentMeansReadExhausted(log, i + 1, id);
    assert SummaryAfter(log).All() == Recorded(d.history);
    n :| HappensInCall(log, n, i + 1, ExhaustionOf(id));
    EveryEventAllowed(d.service.atecc.start, log, n);
  }

  // ---------------------------------------------------------------- runs without loss

  lemma CoupledIsWellFormed(sha: Hash, serial: Serial, m: Memory, t: Token)
    requires Coupled(sha, serial, m, t) && m.counts.pin <= COUNTER_MAX_VALUE && m.counts.puk <= COUNTER_MAX_VALUE
    ensures WellFormed(t)
  {
    CoupledMeans(sha, serial, m, t);
    assert COUNTER_MAX_VALUE - t.forPin.life == m.counts.pin;
    assert COUNTER_MAX_VALUE - t.forPuk.life == m.counts.puk;
  }

  /** Every well-formed token can be provisioned, so the hypotheses below can be met from any of them. */
  lemma EveryTokenHasAChip(sha: Hash, serial: Serial, t: Token) returns (m: Memory)
    requires WellFormed(t)
    ensures Coupled(sha, serial, m, t) && m.HasRecords()
    ensures m.counts.pin <= COUNTER_MAX_VALUE && m.counts.puk <= COUNTER_MAX_VALUE
  {
    var records := map[SLOT_PIN_HASH := PinHash(sha, serial, t.pin), SLOT_PUK_HASH := PukHash(sha, serial, t.puk), SLOT_IO_KEY := t.ioKey];
    m := Memory(Counts(COUNTER_MAX_VALUE - t.forPin.life, COUNTER_MAX_VALUE - t.forPuk.life), records, t.keys);
    CoupledMeans(sha, serial, m, t);
  }

  /** On a provisioned chip, a clean bus and without collisions, every reply of every run is the token's, and the token
      stays well-formed. */
  lemma EveryRunIsTheToken(d: Dispatcher, i: nat)
    requires d.Valid() && d.Assumed() && i < |d.history|
    ensures Answers(After(d.origin, d.history[..i]), d.history[i].request, d.history[i].reply, d.history[i].at)
    ensures WellFormed(After(d.origin, d.history))
  {
    d.Meaning();
    ExplainedAt(d.origin, d.history, i);
    var ch := d.service.atecc;
    CoupledIsWellFormed(ch.sha, ch.serial, ch.chip.memory, After(d.origin, d.history));
  }

  lemma {:induction false} AfterKeepsWellFormed(t: Token, h: History)
    requires WellFormed(t) && Explains(t, h)
    ensures WellFormed(After(t, h))
  {
    if h != [] {
      var c := h[|h| - 1];
      AfterKeepsWellFormed(t, h[..|h| - 1]);
      StepKeepsWellFormed(After(t, h[..|h| - 1]), c.request, c.at, Issued(c.reply));
    }
  }

  lemma CallMovesSession(t: Token, c: Call)
    requires HasIdentity(t.keys) && Answers(t, c.request, c.reply, c.at)
    ensures Next(t, c.request, c.reply, c.at).session == SessionStep(t.session, c)
  {
  }

  /** The token's session is the one the history tells of. */
  lemma {:induction false} SessionsAgree(t: Token, h: History)
    requires HasIdentity(t.keys) && Explains(t, h) && t.session == Session.New()
    ensures After(t, h).session == SessionAfter(h)
  {
    if h != [] {
      SessionsAgree(t, h[..|h| - 1]);
      CallMovesSession(After(t, h[..|h| - 1]), h[|h| - 1]);
    }
  }

  /** In such a run, a sign request on a slot that holds a key is answered with a signature of its digest exactly when the
      session is less than 30 seconds idle, and with PinRequired otherwise. */
  lemma SignedInEveryRun(d: Dispatcher, i: nat)
    requires d.Valid() && d.Assumed() && d.origin.session == Session.New() && i < |d.history| && d.history[i].request.Sign?
    requires d.history[i].request.slot in After(d.origin, d.history[..i]).keys
    ensures var c, last := d.history[i], SessionAfter(d.history[..i]).lastActivityMs;
            c.reply == if last.Some? && c.at < last.value + 30_000
                       then Signed(Signature(c.request.slot, After(d.origin, d.history[..i]).keys[c.request.slot], c.request.digest))
                       else Fail(PinRequired)
  {
    d.Meaning();
    ExplainedAt(d.origin, d.history, i);
    SessionsAgree(d.origin, d.history[..i]);
    ActiveExactly(SessionAfter(d.history[..i]), d.history[i].at);
  }

  /** In such a run, a PIN verified right after a successful change is accepted exactly when it is the new one, unless
      the counter has reached its ceiling. */
  lemma ChangedPinInEveryRun(d: Dispatcher, i: nat)
    requires d.Valid() && d.Assumed() && WellFormed(d.origin) && i + 1 < |d.history|
    requires d.history[i].request.SetPin? && d.history[i].reply.Done? && d.history[i + 1].request.VerifyPin?
    ensures d.history[i + 1].reply.Done? <==>
              d.history[i + 1].request.pin == d.history[i].request.newPin && After(d.origin, d.history[..i + 1]).forPin.life > 0
  {
    var h := d.history;
    d.Meaning();
    ExplainedAt(d.origin, h, i);
    ExplainedAt(d.origin, h, i + 1);
    var t, q := After(d.origin, h[..i]), h[i].request;
    AfterKeepsWellFormed(d.origin, h[..i]);
    assert h[..i + 1][..i] == h[..i];
    SetPinThenVerify(t, q.oldPin, q.newPin, q.ioKey, h[i].at, h[i + 1].request.pin, h[i + 1].at);
  }
}
