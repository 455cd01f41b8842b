/** The count-based scroll loop shared by the ASOS and H&M scrapers
    (scraper_asos.py and scraper_hm.py): scroll to the bottom, re-count the
    product cards, and stop once the count has not changed for `patience`
    consecutive scrolls or after `maxScrolls` scrolls. The page is an oracle:
    `counts(i)` is the number of cards seen after the (i+1)-th scroll. */
module Scroll {

  /** The count the i-th observation is compared against; the loop starts
      with a previous count of 0. */
  function Previous(counts: nat -> int, i: nat): int
  {
    if i == 0 then 0 else counts(i - 1)
  }

  /** The i-th observation repeats the count before it. */
  predicate Unchanged(counts: nat -> int, i: nat) {
    counts(i) == Previous(counts, i)
  }

  /** The value of the no-change counter after the i-th observation: reset to
      0 by a change, increased by one otherwise. */
  function Streak(counts: nat -> int, i: nat): (n: nat)
    ensures n == 0 <==> counts(i) != Previous(counts, i)
    ensures n <= i + 1
  {
    if counts(i) != Previous(counts, i) then 0
    else if i == 0 then 1
    else Streak(counts, i - 1) + 1
  }

  /** The counter reaches k exactly when the last k observations, ending at
      i, each repeated the count before them. */
  lemma {:induction false} StreakMeaning(counts: nat -> int, i: nat, k: nat)
    ensures Streak(counts, i) >= k <==>
      (k <= i + 1 && forall j :: i - k < j <= i ==> Unchanged(counts, j))
    decreases k
  {
    if k == 0 {
    } else if !Unchanged(counts, i) {
      assert Streak(counts, i) == 0;
    } else if i == 0 {
      assert Streak(counts, i) == 1;
    } else {
      StreakMeaning(counts, i - 1, k - 1);
      assert Streak(counts, i) == Streak(counts, i - 1) + 1;
      if k <= i + 1 && forall j :: i - 1 - (k - 1) < j <= i - 1 ==> Unchanged(counts, j) {
        forall j | i - k < j <= i
          ensures Unchanged(counts, j)
        {
          if j < i {
            assert i - 1 - (k - 1) < j <= i - 1;
          }
        }
      }
    }
  }

  /** The first observation index in [from, cap) at which the counter has
      reached `patience`, or `cap` when there is none. */
  function FirstStop(counts: nat -> int, patience: nat, from: nat, cap: nat): (r: nat)
    requires from <= cap
    ensures from <= r <= cap
    ensures r < cap ==> Streak(counts, r) >= patience
    ensures forall j :: from <= j < r ==> Streak(counts, j) < patience
    decreases cap - from
  {
    if from == cap then cap
    else if Streak(counts, from) >= patience then from
    else FirstStop(counts, patience, from + 1, cap)
  }

  /** The loop of scraper_asos.py and scraper_hm.py. It returns the number of
      scrolls performed and whether it ended because the count stalled (the
      `break`) rather than by reaching `maxScrolls`. */
  method ScrollUntilStable(counts: nat -> int, patience: nat, maxScrolls: nat)
    returns (scrolls: nat, stalled: bool)
    ensures scrolls <= maxScrolls
    ensures stalled <==> FirstStop(counts, patience, 0, maxScrolls) < maxScrolls
    ensures scrolls == if stalled then FirstStop(counts, patience, 0, maxScrolls) + 1 else maxScrolls
  {
    var previousCount := 0;
    var scrollAttempts := 0;
    var noChangeCount := 0;
    stalled := false;
    while scrollAttempts < maxScrolls
      invariant scrollAttempts <= maxScrolls
      invariant scrollAttempts > 0 ==> previousCount == counts(scrollAttempts - 1)
      invariant scrollAttempts > 0 ==> noChangeCount == Streak(counts, scrollAttempts - 1)
      invariant scrollAttempts == 0 ==> noChangeCount == 0 && previousCount == 0
      invariant forall j :: 0 <= j < scrollAttempts ==> Streak(counts, j) < patience
    {
      var currentCount := counts(scrollAttempts);
      if currentCount != previousCount {
        noChangeCount := 0;
      } else {
        noChangeCount := noChangeCount + 1;
      }
      if noChangeCount >= patience {
        stalled := true;
        break;
      }
      previousCount := currentCount;
      scrollAttempts := scrollAttempts + 1;
    }
    if stalled {
      scrolls := scrollAttempts + 1;
    } else {
      scrolls := scrollAttempts;
    }
    FirstStopIsFirst(counts, patience, 0, maxScrolls, scrollAttempts);
  }

  /** FirstStop is the least stopping index. */
  lemma FirstStopIsFirst(counts: nat -> int, patience: nat, from: nat, cap: nat, i: nat)
    requires from <= i <= cap
    requires forall j :: from <= j < i ==> Streak(counts, j) < patience
    requires i < cap ==> Streak(counts, i) >= patience
    ensures FirstStop(counts, patience, from, cap) == i
  {
  }

  /** A page that stops yielding new cards from observation `s` on ends the
      loop, by stalling, within `s + patience` scrolls, provided the cap
      leaves room for that. */
  lemma StallWithinPatience(counts: nat -> int, patience: nat, maxScrolls: nat, s: nat)
    requires 1 <= patience && s + patience <= maxScrolls
    requires forall j :: s <= j ==> Unchanged(counts, j)
    ensures FirstStop(counts, patience, 0, maxScrolls) < maxScrolls
    ensures FirstStop(counts, patience, 0, maxScrolls) + 1 <= s + patience
  {
    var i := s + patience - 1;
    StreakMeaning(counts, i, patience);
  }
}
