/** The button debouncer and its windowed reference definition. */
module Debounce {
  import opened Bytes

  const DEBOUNCE_STABLE_SAMPLES: nat := 5

  datatype Debounced = Debounced(stable: bool, candidate: bool, count: nat)

  function Fresh(initial: bool): Debounced {
    Debounced(initial, initial, 0)
  }

  /** The sample that completes the run of samples contradicting the stable level. */
  predicate Commits(d: Debounced, level: bool) {
    level != d.stable && level == d.candidate && d.count + 1 >= DEBOUNCE_STABLE_SAMPLES
  }

  function Next(d: Debounced, level: bool): Debounced {
    if level == d.stable then Debounced(d.stable, d.stable, 0)
    else if Commits(d, level) then Debounced(level, level, 0)
    else if level == d.candidate then Debounced(d.stable, level, d.count + 1)
    else Debounced(d.stable, level, 1)
  }

  /** The eight-bit `saturating_add(1)`. */
  function SaturatingIncrement(n: nat): nat {
    if n < 255 then n + 1 else 255
  }

  class Debouncer {
    var stable: bool
    var candidate: bool
    var count: nat

    ghost predicate Valid()
      reads this
    {
      count < DEBOUNCE_STABLE_SAMPLES
    }

    ghost function View(): Debounced
      reads this
    {
      Debounced(stable, candidate, count)
    }

    constructor (initial: bool)
      ensures Valid() && View() == Fresh(initial)
    {
      stable, candidate, count := initial, initial, 0;
    }

    method Sample(level: bool) returns (changed: Option<bool>)
      requires Valid()
      modifies this
      ensures Valid() && View() == Next(old(View()), level)
      ensures changed == if Commits(old(View()), level) then Some(level) else None
    {
      if level == stable {
        candidate := stable;
        count := 0;
        return None;
      }
      if level == candidate {
        count := SaturatingIncrement(count);
        if count >= DEBOUNCE_STABLE_SAMPLES {
          stable := candidate;
          count := 0;
          return Some(stable);
        }
        changed := None;
      } else {
        candidate := level;
        count := 1;
        changed := None;
      }
    }
  }

  // ---------------------------------------------------------------- whole runs

  function Run(initial: bool, samples: seq<bool>): Debounced {
    if samples == [] then Fresh(initial)
    else Next(Run(initial, samples[..|samples| - 1]), samples[|samples| - 1])
  }

  /** The last five samples all read `level`. */
  predicate Window(samples: seq<bool>, level: bool) {
    var n := |samples|;
    n >= 5 && forall i :: n - 5 <= i < n ==> samples[i] == level
  }

  /** The reference: the level changes exactly when a full window contradicts it. */
  function Settled(initial: bool, samples: seq<bool>): bool {
    if samples == [] then initial
    else
      var before := Settled(initial, samples[..|samples| - 1]);
      if Window(samples, !before) then !before else before
  }

  /** How many changes have been reported. */
  function Reports(initial: bool, samples: seq<bool>): nat {
    if samples == [] then 0
    else
      var before := samples[..|samples| - 1];
      Reports(initial, before) + if Commits(Run(initial, before), samples[|samples| - 1]) then 1 else 0
  }

  /** Length of the run of `level` at the end. */
  function Trailing(samples: seq<bool>, level: bool): (n: nat)
    ensures n <= |samples|
    ensures forall i :: |samples| - n <= i < |samples| ==> samples[i] == level
    ensures n < |samples| ==> samples[|samples| - n - 1] != level
  {
    if samples == [] || samples[|samples| - 1] != level then 0
    else 1 + Trailing(samples[..|samples| - 1], level)
  }

  lemma TrailingExtend(samples: seq<bool>, x: bool, level: bool)
    ensures Trailing(samples + [x], level) == if x == level then Trailing(samples, level) + 1 else 0
  {
    assert (samples + [x])[..|samples|] == samples;
  }

  lemma WindowIsTrailing(samples: seq<bool>, level: bool)
    ensures Window(samples, level) <==> Trailing(samples, level) >= DEBOUNCE_STABLE_SAMPLES
  {
    var n, t := |samples|, Trailing(samples, level);
    if n >= DEBOUNCE_STABLE_SAMPLES && t < DEBOUNCE_STABLE_SAMPLES {
      assert samples[n - t - 1] != level;
    }
  }

  /** The machine's registers are the trailing run of samples that contradict the settled level. */
  lemma {:induction false} RunRefinesWindows(initial: bool, samples: seq<bool>)
    ensures var d := Run(initial, samples);
            && d.stable == Settled(initial, samples)
            && d.count == Trailing(samples, !d.stable) < DEBOUNCE_STABLE_SAMPLES
            && d.candidate == (if d.count == 0 then d.stable else !d.stable)
    ensures DEBOUNCE_STABLE_SAMPLES * Reports(initial, samples) + Run(initial, samples).count <= |samples|
  {
    if samples != [] {
      var before, x := samples[..|samples| - 1], samples[|samples| - 1];
      assert samples == before + [x];
      RunRefinesWindows(initial, before);
      var d := Run(initial, before);
      TrailingExtend(before, x, !d.stable);
      TrailingExtend(before, x, d.stable);
      WindowIsTrailing(samples, !d.stable);
    }
  }

  /** A sample reports a change exactly when it completes a window against the settled level, the report is
      the opposite level, and n samples give at most n/5 reports. */
  lemma SampleReportsExactly(initial: bool, samples: seq<bool>, x: bool)
    ensures var d := Run(initial, samples);
            && (Commits(d, x) <==> Window(samples + [x], !Settled(initial, samples)))
            && (Commits(d, x) ==> Next(d, x).stable == x == !d.stable)
            && (!Commits(d, x) ==> Next(d, x).stable == d.stable)
    ensures Reports(initial, samples) <= |samples| / 5
  {
    RunRefinesWindows(initial, samples);
    var d := Run(initial, samples);
    TrailingExtend(samples, x, !d.stable);
    WindowIsTrailing(samples + [x], !d.stable);
  }
}
