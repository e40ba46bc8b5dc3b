/** The chip's own record of what it executed, and the retry discipline every such record must satisfy. */
module ChipLog {
  import opened Bytes
  import opened CounterEncoding
  import opened RetryCounter
  import opened Messages

  datatype ChipEvent =
    | CallStarts
    | CountRead(id: CounterId, value: nat)
    | CodeChecked(id: CounterId, before: nat, matched: bool)
    | Incremented(id: CounterId, before: nat)
    | SlotWritten(target: nat, content: Block)
    | KeyGenerated(slot: Slot)
    | DigestSigned(slot: Slot, digest: Block)

  type Log = seq<ChipEvent>

  // ---------------------------------------------------------------- counts and permission

  function Ticks(e: ChipEvent, id: CounterId): nat {
    if (e.CodeChecked? || e.Incremented?) && e.id == id then 1 else 0
  }

  /** The counters after an event. */
  function Ticked(counts: Counts, e: ChipEvent): Counts {
    if e.CodeChecked? || e.Incremented? then counts.Set(e.id, counts.Get(e.id) + 1) else counts
  }

  /** The counters after a log, from their values before. */
  function CountsAfter(start: Counts, log: Log): Counts {
    if log == [] then start else Ticked(CountsAfter(start, log[..|log| - 1]), log[|log| - 1])
  }

  /** What the call in progress has shown so far: nothing, an exhausted PIN batch, or its right to a refresh. */
  datatype Gate = Shut | PinExhausted | Open

  function GateStep(g: Gate, e: ChipEvent): Gate {
    match e
    case CallStarts => Shut
    case CodeChecked(_, _, matched) => if matched then Open else Shut
    case CountRead(Counter0, v) => if g == Shut && Exhausted(v, Counter0) then PinExhausted else g
    case CountRead(Counter1, v) => if g == PinExhausted && Exhausted(v, Counter1) then Open else g
    case _ => g
  }

  function GateAfter(log: Log): Gate {
    if log == [] then Shut else GateStep(GateAfter(log[..|log| - 1]), log[|log| - 1])
  }

  /** The event earns the right to a refresh: a matching code, or the second of two exhausted batches. */
  predicate Earns(g: Gate, e: ChipEvent) {
    (e.CodeChecked? && e.matched) || (g != Open && GateStep(g, e) == Open)
  }

  // ---------------------------------------------------------------- what each call did

  datatype Signing = Signing(slot: Slot, digest: Block)

  /** What the chip did within one call: whether it confirmed a PIN, which batches it was read to have exhausted, and
      everything it signed. */
  datatype Deeds = Deeds(confirmed: bool, spent: set<CounterId>, signings: seq<Signing>) {
    function Add(e: ChipEvent): Deeds {
      Deeds(confirmed || ConfirmsPin(e), spent + (if e.CountRead? && ShowsExhausted(e, e.id) then {e.id} else {}), signings + SignedBy(e))
    }
  }

  predicate BothSpent(d: Deeds) {
    Counter0 in d.spent && Counter1 in d.spent
  }

  const NOTHING: Deeds := Deeds(false, {}, [])

  predicate ConfirmsPin(e: ChipEvent) {
    e.CodeChecked? && e.id == Counter0 && e.matched
  }

  predicate ShowsExhausted(e: ChipEvent, id: CounterId) {
    e.CountRead? && e.id == id && Exhausted(e.value, id)
  }

  function SignedBy(e: ChipEvent): seq<Signing> {
    if e.DigestSigned? then [Signing(e.slot, e.digest)] else []
  }

  /** Deeds of the finished calls, oldest first, and of the one in progress. Number 0 stands before the first call. */
  datatype Summary = Summary(past: seq<Deeds>, current: Deeds) {
    function Add(e: ChipEvent): Summary {
      if e.CallStarts? then Summary(past + [current], NOTHING) else this.(current := current.Add(e))
    }

    function All(): seq<Deeds> {
      past + [current]
    }
  }

  function SummaryAfter(log: Log): Summary {
    if log == [] then Summary([], NOTHING) else SummaryAfter(log[..|log| - 1]).Add(log[|log| - 1])
  }

  /** Everything the chip signed, in order. */
  function AllSignings(log: Log): seq<Signing> {
    if log == [] then [] else AllSignings(log[..|log| - 1]) + SignedBy(log[|log| - 1])
  }

  function SignedIn(calls: seq<Deeds>): seq<Signing> {
    if calls == [] then [] else SignedIn(calls[..|calls| - 1]) + calls[|calls| - 1].signings
  }

  /** The calls account for every signature the chip made, none twice and in order. */
  lemma {:induction false} SummaryKeepsEverySignature(log: Log)
    ensures AllSignings(log) == SignedIn(SummaryAfter(log).All())
  {
    var after := SummaryAfter(log);
    assert after.All()[..|after.past|] == after.past;
    if log != [] {
      var before := SummaryAfter(log[..|log| - 1]);
      SummaryKeepsEverySignature(log[..|log| - 1]);
      assert before.All()[..|before.past|] == before.past;
    }
  }

  /** The number of the call an event belongs to. */
  function CallNumber(log: Log): nat {
    if log == [] then 0 else CallNumber(log[..|log| - 1]) + if log[|log| - 1].CallStarts? then 1 else 0
  }

  /** Event `i` belongs to `call` and satisfies `p`. */
  ghost predicate HappensInCall(log: Log, i: nat, call: nat, p: ChipEvent -> bool) {
    i < |log| && p(log[i]) && CallNumber(log[..i]) == call
  }

  lemma HappensStep(before: Log, e: ChipEvent, call: nat, p: ChipEvent -> bool)
    ensures (exists i :: HappensInCall(before + [e], i, call, p)) <==>
            (exists i :: HappensInCall(before, i, call, p)) || (p(e) && CallNumber(before) == call)
  {
    var log := before + [e];
    assert log[..|before|] == before;
    assert forall i :: 0 <= i < |before| ==> log[..i] == before[..i];
    if i: nat :| HappensInCall(before, i, call, p) {
      assert HappensInCall(log, i, call, p);
    }
    if p(e) && CallNumber(before) == call {
      assert HappensInCall(log, |before|, call, p);
    }
    if i: nat :| HappensInCall(log, i, call, p) && i < |before| {
      assert HappensInCall(before, i, call, p);
    }
  }

  /** A call counts as confirmed exactly when one of its own events confirmed a PIN. */
  lemma {:induction false} ConfirmedMeansMatchingPin(log: Log, call: nat)
    ensures |SummaryAfter(log).past| == CallNumber(log)
    ensures call <= CallNumber(log) ==>
              (SummaryAfter(log).All()[call].confirmed <==> exists i :: HappensInCall(log, i, call, ConfirmsPin))
  {
    if log != [] {
      var before, e := log[..|log| - 1], log[|log| - 1];
      assert log == before + [e];
      ConfirmedMeansMatchingPin(before, call);
      HappensStep(before, e, call, ConfirmsPin);
      NoLaterCalls(before);
    }
  }

  function ExhaustionOf(id: CounterId): ChipEvent -> bool {
    e => ShowsExhausted(e, id)
  }

  /** And a batch counts as spent exactly when the call read its counter exhausted. */
  lemma {:induction false} SpentMeansReadExhausted(log: Log, call: nat, id: CounterId)
    ensures |SummaryAfter(log).past| == CallNumber(log)
    ensures call <= CallNumber(log) ==>
              (id in SummaryAfter(log).All()[call].spent <==> exists i :: HappensInCall(log, i, call, ExhaustionOf(id)))
  {
    if log != [] {
      var before, e := log[..|log| - 1], log[|log| - 1];
      assert log == before + [e];
      SpentMeansReadExhausted(before, call, id);
      HappensStep(before, e, call, ExhaustionOf(id));
      NoLaterCalls(before);
    }
  }

  lemma {:induction false} NoLaterCalls(log: Log)
    ensures forall i :: 0 <= i <= |log| ==> CallNumber(log[..i]) <= CallNumber(log)
  {
    assert log[..|log|] == log;
    if log != [] {
      var before := log[..|log| - 1];
      NoLaterCalls(before);
      assert forall i :: 0 <= i < |log| ==> before[..i] == log[..i];
    }
  }

  // ---------------------------------------------------------------- the discipline

  /** No code is tested on an exhausted batch; no counter is refreshed and no record replaced without the right to. */
  predicate Permitted(counts: Counts, gate: Gate, e: ChipEvent) {
    match e
    case CodeChecked(id, n, _) => n == counts.Get(id) && n < COUNTER_MAX_VALUE && !Exhausted(n, id)
    case Incremented(id, n) => n == counts.Get(id) && n < COUNTER_MAX_VALUE && gate == Open
    case CountRead(id, n) => n == counts.Get(id)
    case SlotWritten(_, _) => gate == Open
    case _ => true
  }

  ghost predicate Allowed(start: Counts, before: Log, e: ChipEvent) {
    Permitted(CountsAfter(start, before), GateAfter(before), e)
  }

  ghost predicate Disciplined(start: Counts, log: Log) {
    log == [] || (Disciplined(start, log[..|log| - 1]) && Allowed(start, log[..|log| - 1], log[|log| - 1]))
  }

  /** A disciplined log, and where it has led. */
  ghost predicate Narrates(log: Log, start: Counts, counts: Counts, gate: Gate, summary: Summary) {
    && Disciplined(start, log)
    && counts == CountsAfter(start, log) && gate == GateAfter(log) && summary == SummaryAfter(log)
  }

  /** The same, folded away behind layers so that it is looked into only by the three lemmas below. */
  ghost predicate Accounted(log: Log, start: Counts, counts: Counts, gate: Gate, summary: Summary, layers: nat)
    decreases layers, |log|
  {
    if layers == 0 then Narrates(log, start, counts, gate, summary)
    else Accounted(log, start, counts, gate, summary, layers - 1)
  }

  lemma AccountedMeans(log: Log, start: Counts, counts: Counts, gate: Gate, summary: Summary, layers: nat)
    ensures Accounted(log, start, counts, gate, summary, layers) <==> Narrates(log, start, counts, gate, summary)
  {
  }

  lemma NothingAccounted(start: Counts, layers: nat)
    ensures Accounted([], start, start, Shut, Summary([], NOTHING), layers)
  {
    AccountedMeans([], start, start, Shut, Summary([], NOTHING), layers);
  }

  lemma AccountFor(log: Log, start: Counts, counts: Counts, gate: Gate, summary: Summary, layers: nat, e: ChipEvent)
    requires Accounted(log, start, counts, gate, summary, layers) && Permitted(counts, gate, e)
    ensures Accounted(log + [e], start, Ticked(counts, e), GateStep(gate, e), summary.Add(e), layers)
  {
    AccountedMeans(log, start, counts, gate, summary, layers);
    AccountedMeans(log + [e], start, Ticked(counts, e), GateStep(gate, e), summary.Add(e), layers);
    Extend(start, log, e);
  }

  /** Every event of a disciplined log was allowed where it happened. */
  lemma {:induction false} EveryEventAllowed(start: Counts, log: Log, i: nat)
    requires Disciplined(start, log) && i < |log|
    ensures Allowed(start, log[..i], log[i])
  {
    var before := log[..|log| - 1];
    if i < |before| {
      EveryEventAllowed(start, before, i);
      assert before[..i] == log[..i];
    }
  }

  lemma Extend(start: Counts, log: Log, e: ChipEvent)
    requires Disciplined(start, log) && Allowed(start, log, e)
    ensures Disciplined(start, log + [e])
    ensures GateAfter(log + [e]) == GateStep(GateAfter(log), e)
    ensures SummaryAfter(log + [e]) == SummaryAfter(log).Add(e)
    ensures CountsAfter(start, log + [e]) == Ticked(CountsAfter(start, log), e)
  {
    assert (log + [e])[..|log|] == log;
  }

  // ---------------------------------------------------------------- what an open gate means

  /** Nothing between `from` and the end starts another call or fails a code. */
  ghost predicate SameCallSince(log: Log, from: nat) {
    forall k :: from <= k < |log| ==> !log[k].CallStarts? && !(log[k].CodeChecked? && !log[k].matched)
  }

  /** A code matched in this call. */
  ghost predicate MatchedInCall(log: Log, i: nat) {
    i < |log| && log[i].CodeChecked? && log[i].matched && SameCallSince(log, i)
  }

  /** Both batches were read exhausted in this call, the PIN's first. */
  ghost predicate BothExhaustedInCall(log: Log, i: nat, j: nat) {
    && i < j < |log| && SameCallSince(log, i)
    && log[i].CountRead? && log[i].id == Counter0 && Exhausted(log[i].value, Counter0)
    && log[j].CountRead? && log[j].id == Counter1 && Exhausted(log[j].value, Counter1)
  }

  ghost predicate Entitled(log: Log) {
    (exists i :: MatchedInCall(log, i)) || (exists i, j :: BothExhaustedInCall(log, i, j))
  }

  ghost predicate PinExhaustedInCall(log: Log, i: nat) {
    i < |log| && SameCallSince(log, i) && log[i].CountRead? && log[i].id == Counter0 && Exhausted(log[i].value, Counter0)
  }

  /** The gate only opens on evidence found in the same call. */
  lemma {:induction false} GateIsEvidence(log: Log)
    ensures GateAfter(log) == PinExhausted ==> exists i :: PinExhaustedInCall(log, i)
    ensures GateAfter(log) == Open ==> Entitled(log)
  {
    if log != [] {
      var before, e := log[..|log| - 1], log[|log| - 1];
      GateIsEvidence(before);
      if GateAfter(log) == PinExhausted {
        if GateAfter(before) == PinExhausted {
          var i :| PinExhaustedInCall(before, i);
          assert PinExhaustedInCall(log, i);
        } else {
          assert PinExhaustedInCall(log, |before|);
        }
      } else if GateAfter(log) == Open {
        OpenIsEvidence(before, e, log);
      }
    }
  }

  lemma OpenIsEvidence(before: Log, e: ChipEvent, log: Log)
    requires log == before + [e] && GateAfter(log) == Open && GateAfter(log) == GateStep(GateAfter(before), e)
    requires GateAfter(before) == PinExhausted ==> exists i :: PinExhaustedInCall(before, i)
    requires GateAfter(before) == Open ==> Entitled(before)
    ensures Entitled(log)
  {
    if e.CodeChecked? {
      assert MatchedInCall(log, |before|);
    } else if GateAfter(before) == Open {
      if i :| MatchedInCall(before, i) {
        assert MatchedInCall(log, i);
      } else {
        var i, j :| BothExhaustedInCall(before, i, j);
        assert BothExhaustedInCall(log, i, j);
      }
    } else {
      var i :| PinExhaustedInCall(before, i);
      assert BothExhaustedInCall(log, i, |before|);
    }
  }

  /** In a disciplined log, a counter leaves a multiple of its batch only by a refresh the call was entitled to. */
  lemma ExhaustedLeavesOnlyByRefresh(start: Counts, log: Log, i: nat, id: CounterId)
    requires Disciplined(start, log) && i < |log|
    requires Ticks(log[i], id) == 1 && Exhausted(CountsAfter(start, log[..i]).Get(id), id)
    ensures log[i].Incremented? && Entitled(log[..i])
  {
    EveryEventAllowed(start, log, i);
    GateIsEvidence(log[..i]);
  }

  /** In a disciplined log, whatever replaces a record or refreshes a counter acts in a call that has matched a code or
      found both batches exhausted. */
  lemma ChangesOnlyWhenEntitled(start: Counts, log: Log, i: nat)
    requires Disciplined(start, log) && i < |log|
    requires log[i].SlotWritten? || log[i].Incremented?
    ensures Entitled(log[..i])
  {
    EveryEventAllowed(start, log, i);
    GateIsEvidence(log[..i]);
  }

  // ---------------------------------------------------------------- bounded guessing

  /** Wrong codes tested on a counter in `log[from..upto]`. */
  ghost function Misses(log: Log, from: nat, upto: nat, id: CounterId): nat
    requires from <= upto <= |log|
  {
    if from == upto then 0
    else Misses(log, from, upto - 1, id) + if Missed(log[upto - 1], id) then 1 else 0
  }

  /** No event of the stretch earns a refresh. */
  ghost predicate EarnsNothing(log: Log, from: nat, upto: nat)
    requires from <= upto <= |log|
  {
    forall k :: from <= k < upto ==> !Earns(GateAfter(log[..k]), log[k])
  }

  lemma PrefixSteps(start: Counts, log: Log, k: nat)
    requires k < |log|
    ensures GateAfter(log[..k + 1]) == GateStep(GateAfter(log[..k]), log[k])
    ensures CountsAfter(start, log[..k + 1]) == Ticked(CountsAfter(start, log[..k]), log[k])
  {
    assert log[..k + 1][..k] == log[..k];
  }

  /** The last `m` tests lie after the last multiple of the batch. */
  predicate Fits(m: nat, count: nat, id: CounterId) {
    m > 0 ==> count > 0 && m <= (count - 1) % Batch(id) + 1
  }

  predicate Missed(e: ChipEvent, id: CounterId) {
    e.CodeChecked? && e.id == id && !e.matched
  }

  lemma NextFits(count: nat, id: CounterId, m: nat)
    requires !Exhausted(count, id) && Fits(m, count, id)
    ensures Fits(m + 1, count + 1, id) && Fits(m, count + 1, id)
  {
    if count > 0 {
      ModAdd(count - 1, 1, Batch(id));
    }
  }

  lemma MissStep(counts: Counts, gate: Gate, e: ChipEvent, id: CounterId, m: nat)
    requires Permitted(counts, gate, e) && !Earns(gate, e)
    requires (gate == Open ==> m == 0) && Fits(m, counts.Get(id), id)
    ensures var m' := m + if Missed(e, id) then 1 else 0;
            (GateStep(gate, e) == Open ==> m' == 0) && Fits(m', Ticked(counts, e).Get(id), id)
  {
    if Missed(e, id) {
      NextFits(counts.Get(id), id, m);
    }
  }

  /** While nothing is earned, the misses all lie after the last multiple of the batch. */
  lemma {:induction false} MissesFitTheBatch(start: Counts, log: Log, from: nat, upto: nat, id: CounterId)
    requires from <= upto <= |log| && Disciplined(start, log) && EarnsNothing(log, from, upto)
    ensures GateAfter(log[..upto]) == Open ==> Misses(log, from, upto, id) == 0
    ensures Fits(Misses(log, from, upto, id), CountsAfter(start, log[..upto]).Get(id), id)
    decreases upto
  {
    if from < upto {
      var k := upto - 1;
      MissesFitTheBatch(start, log, from, k, id);
      PrefixSteps(start, log, k);
      EveryEventAllowed(start, log, k);
      MissStep(CountsAfter(start, log[..k]), GateAfter(log[..k]), log[k], id, Misses(log, from, k, id));
    }
  }

  // ---------------------------------------------------------------- between two refreshes

  /** Codes tested on a counter in `log[from..upto]`, right or wrong. */
  ghost function Tests(log: Log, from: nat, upto: nat, id: CounterId): nat
    requires from <= upto <= |log|
  {
    if from == upto then 0
    else Tests(log, from, upto - 1, id) + if log[upto - 1].CodeChecked? && log[upto - 1].id == id then 1 else 0
  }

  /** The event takes a counter past an exhausted batch: from a multiple to one past it. */
  predicate Refreshes(e: ChipEvent, id: CounterId) {
    e.Incremented? && e.id == id && Exhausted(e.before, id)
  }

  lemma TestStep(counts: Counts, gate: Gate, e: ChipEvent, id: CounterId, m: nat)
    requires Permitted(counts, gate, e) && !Refreshes(e, id) && Fits(m, counts.Get(id), id)
    ensures Fits(m + if e.CodeChecked? && e.id == id then 1 else 0, Ticked(counts, e).Get(id), id)
  {
    if (e.CodeChecked? || e.Incremented?) && e.id == id {
      NextFits(counts.Get(id), id, m);
    }
  }

  lemma {:induction false} TestsFitTheBatch(start: Counts, log: Log, from: nat, upto: nat, id: CounterId)
    requires from <= upto <= |log| && Disciplined(start, log)
    requires forall k :: from <= k < upto ==> !Refreshes(log[k], id)
    ensures Fits(Tests(log, from, upto, id), CountsAfter(start, log[..upto]).Get(id), id)
    decreases upto
  {
    if from < upto {
      var k := upto - 1;
      TestsFitTheBatch(start, log, from, k, id);
      PrefixSteps(start, log, k);
      EveryEventAllowed(start, log, k);
      TestStep(CountsAfter(start, log[..k]), GateAfter(log[..k]), log[k], id, Tests(log, from, k, id));
    }
  }

  /** In every disciplined log, between two refreshes of a counter, that is, in any stretch in which it is not taken past
      an exhausted batch, at most 5 PINs and 10 PUKs are tested, right ones included. */
  lemma BoundedGuessing(start: Counts, log: Log, from: nat, upto: nat, id: CounterId)
    requires from <= upto <= |log| && Disciplined(start, log)
    requires forall k :: from <= k < upto ==> !Refreshes(log[k], id)
    ensures Tests(log, from, upto, id) <= Batch(id)
  {
    TestsFitTheBatch(start, log, from, upto, id);
  }
}
