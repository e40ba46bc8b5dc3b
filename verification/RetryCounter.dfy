/** Batch arithmetic over the monotonic counters: how many tries are left and where a refresh lands. */
module RetryCounter {
  import opened CounterEncoding

  const PIN_MAX_RETRIES: nat := 5
  const PUK_MAX_RETRIES: nat := 10

  datatype CounterId = Counter0 | Counter1

  datatype Counts = Counts(pin: nat, puk: nat) {
    function Get(id: CounterId): nat {
      if id == Counter0 then pin else puk
    }

    function Set(id: CounterId, n: nat): Counts {
      if id == Counter0 then Counts(n, puk) else Counts(pin, n)
    }
  }

  function Batch(id: CounterId): nat {
    if id == Counter0 then PIN_MAX_RETRIES else PUK_MAX_RETRIES
  }

  /** A full batch was consumed with no success in between. */
  predicate Saturated(count: nat, batch: nat)
    requires batch >= 1
  {
    count > 0 && count % batch == 0
  }

  /** The same for a counter and its own batch, 5 or 10. */
  predicate Exhausted(count: nat, id: CounterId) {
    count > 0 && match id case Counter0 => count % 5 == 0 case Counter1 => count % 10 == 0
  }

  /** One past a multiple of the batch, where a refresh leaves a counter. */
  predicate FreshBatch(count: nat, id: CounterId) {
    match id case Counter0 => count % 5 == 1 case Counter1 => count % 10 == 1
  }

  lemma ExhaustedIsSaturated(count: nat, id: CounterId)
    ensures Exhausted(count, id) <==> Saturated(count, Batch(id))
    ensures Exhausted(count, id) <==> RetriesRemaining(count, Batch(id)) == 0
  {
  }

  function RetriesRemaining(count: nat, batch: nat): nat
    requires batch >= 2
  {
    var remainder := count % batch;
    if count == 0 then batch
    else if remainder == 0 then 0
    else if remainder == 1 then batch - 1
    else batch - remainder
  }

  /** Increments a refresh issues from `count`. */
  function Bumps(count: nat, batch: nat): nat
    requires batch >= 2
  {
    var remainder := count % batch;
    if remainder == 0 then 1
    else if remainder == 1 then 0
    else batch - remainder + 1
  }

  function Refreshed(count: nat, batch: nat): nat
    requires batch >= 2
  {
    count + Bumps(count, batch)
  }

  // ---------------------------------------------------------------- modular steps

  lemma ModOf(q: nat, r: nat, batch: nat)
    requires r < batch
    ensures (q * batch + r) % batch == r
  {
    var n := q * batch + r;
    var q', r' := n / batch, n % batch;
    assert n == q' * batch + r';
    if q' < q {
      Distribute(q, q', batch);
      MulAtLeast(q - q', batch);
    } else if q < q' {
      Distribute(q', q, batch);
      MulAtLeast(q' - q, batch);
    }
  }

  lemma Distribute(a: nat, b: nat, batch: nat)
    requires b <= a
    ensures (a - b) * batch == a * batch - b * batch
  {
  }

  lemma MulAtLeast(k: nat, batch: nat)
    requires k >= 1
    ensures k * batch >= batch
  {
    assert k * batch == (k - 1) * batch + batch;
  }

  /** Adding less than a batch wraps the remainder at most once. */
  lemma ModAdd(count: nat, k: nat, batch: nat)
    requires batch >= 1 && k <= batch
    ensures (count + k) % batch ==
            if count % batch + k < batch then count % batch + k else count % batch + k - batch
  {
    var q, r := count / batch, count % batch;
    assert count == q * batch + r;
    if r + k < batch {
      ModOf(q, r + k, batch);
    } else {
      assert count + k == (q + 1) * batch + (r + k - batch);
      ModOf(q + 1, r + k - batch, batch);
    }
  }

  // ---------------------------------------------------------------- the reference meaning

  /** Tries left is the distance to the next saturated count: no earlier, no later. */
  lemma RetriesIsDistanceToSaturation(count: nat, batch: nat)
    requires batch >= 2
    ensures var t := RetriesRemaining(count, batch);
            && t <= batch && Saturated(count + t, batch)
            && forall n :: count <= n < count + t ==> !Saturated(n, batch)
  {
    var t := RetriesRemaining(count, batch);
    ModAdd(count, t, batch);
    forall n | count <= n < count + t
      ensures !Saturated(n, batch)
    {
      NotYetSaturated(count, n, batch);
    }
  }

  lemma NotYetSaturated(count: nat, n: nat, batch: nat)
    requires batch >= 2 && count <= n < count + RetriesRemaining(count, batch)
    ensures !Saturated(n, batch)
  {
    ModAdd(count, n - count, batch);
  }

  /** A refresh stops at the least count, from where it starts, that is one past a multiple. */
  lemma RefreshIsLeast(count: nat, batch: nat)
    requires batch >= 2
    ensures var n := Refreshed(count, batch);
            && count <= n < count + batch && n % batch == 1
            && forall k :: count <= k < n ==> k % batch != 1
    ensures RetriesRemaining(Refreshed(count, batch), batch) == batch - 1
  {
    var b := Bumps(count, batch);
    ModAdd(count, b, batch);
    forall k | count <= k < count + b
      ensures k % batch != 1
    {
      ModAdd(count, k - count, batch);
    }
  }

  lemma RefreshBelow(count: nat, top: nat, batch: nat)
    requires batch >= 2 && count <= top && top % batch == 1
    ensures Refreshed(count, batch) <= top && Refreshed(top, batch) == top
  {
    RefreshIsLeast(count, batch);
  }

  /** The hardware ceiling is itself a refreshed count for both batches, so a refresh never runs into it. */
  lemma RefreshNeverMeetsCeiling(count: nat, id: CounterId)
    requires count <= COUNTER_MAX_VALUE
    ensures Refreshed(count, Batch(id)) <= COUNTER_MAX_VALUE
    ensures Refreshed(COUNTER_MAX_VALUE, Batch(id)) == COUNTER_MAX_VALUE
  {
    match id {
      case Counter0 => RefreshBelow(count, COUNTER_MAX_VALUE, 5);
      case Counter1 => RefreshBelow(count, COUNTER_MAX_VALUE, 10);
    }
  }

  /** From a refreshed count, a cycle of wrong tries and one success costs exactly one batch, however many were wrong. */
  lemma CycleCostsOneBatch(count: nat, wrong: nat, batch: nat)
    requires batch >= 2 && count % batch == 1 && wrong <= batch - 2
    ensures forall n :: count <= n <= count + wrong ==> !Saturated(n, batch)
    ensures Refreshed(count + wrong + 1, batch) == count + batch
  {
    forall n | count <= n <= count + wrong
      ensures !Saturated(n, batch)
    {
      ModAdd(count, n - count, batch);
    }
    ModAdd(count, wrong + 1, batch);
  }

  /** A miss costs one try and one tick; tries never wrap while any are left. */
  lemma MissCostsOneTry(count: nat, batch: nat)
    requires batch >= 2 && !Saturated(count, batch)
    ensures RetriesRemaining(count, batch) > 0
    ensures RetriesRemaining(count + 1, batch) == RetriesRemaining(count, batch) - 1
  {
    ModAdd(count, 1, batch);
  }

  /** The ticks a refresh costs, in terms of the tries left: all of them and one more, except that a fresh batch costs
      nothing and an untouched counter one. */
  function RenewalCost(tries: int, batch: nat): int {
    if tries == batch then 1 else if tries == batch - 1 then 0 else tries + 1
  }

  lemma RefreshCost(count: nat, batch: nat)
    requires batch >= 2
    ensures Bumps(count, batch) == RenewalCost(RetriesRemaining(count, batch), batch)
  {
  }
}
