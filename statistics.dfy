/** The read-only figures of calculateStatistics (App.js:313-336): the two `reduce`
    sums over the count objects and the most-used search with its earliest-wins tie-break. */
module Statistics {
  import opened Adhkar

  /** `Object.values(m)` for a count object whose keys were inserted in the order `keys`. */
  function Values(keys: seq<Dhikr>, m: map<Dhikr, nat>): (vs: seq<nat>)
    requires forall k :: k in keys ==> k in m
    ensures |vs| == |keys|
    ensures forall i :: 0 <= i < |keys| ==> vs[i] == m[keys[i]]
  {
    if keys == [] then [] else [m[keys[0]]] + Values(keys[1..], m)
  }

  /** The sum of a sequence of counts. */
  function Sum(xs: seq<nat>): (s: nat) {
    if xs == [] then 0 else xs[0] + Sum(xs[1..])
  }

  /** `xs.reduce((sum, count) => sum + count, acc)`: a left fold from the accumulator. */
  function Reduce(xs: seq<nat>, acc: nat): (r: nat) {
    if xs == [] then acc else Reduce(xs[1..], acc + xs[0])
  }

  /** The fold computes the sum, on top of its starting accumulator. */
  lemma {:induction false} ReduceIsSum(xs: seq<nat>, acc: nat)
    ensures Reduce(xs, acc) == acc + Sum(xs)
  {
    if xs != [] {
      ReduceIsSum(xs[1..], acc + xs[0]);
    }
  }

  /** The sum of the counts of `keys` in `m`. */
  function SumOver(keys: seq<Dhikr>, m: map<Dhikr, nat>): (s: nat)
    requires forall k :: k in keys ==> k in m
  {
    Sum(Values(keys, m))
  }

  /** `totalAll` / `currentAll` of a count object holding every category. */
  function SumAll(m: map<Dhikr, nat>): (s: nat)
    requires forall d :: d in m
  {
    SumOver(AdhkarList, m)
  }

  /** `m[d] || 0`: a missing entry reads as 0. */
  function CountOf(m: map<Dhikr, nat>, d: Dhikr): (c: nat) {
    if d in m then m[d] else 0
  }

  /** Setting one key's count to `v` changes the sum by exactly `v - m[d]`, and by nothing
      when the key is not summed. */
  lemma {:induction false} SumOverUpdate(keys: seq<Dhikr>, m: map<Dhikr, nat>, d: Dhikr, v: nat)
    requires Distinct(keys)
    requires forall k :: k in keys ==> k in m
    ensures d in keys ==> SumOver(keys, m[d := v]) + m[d] == SumOver(keys, m) + v
    ensures d !in keys ==> SumOver(keys, m[d := v]) == SumOver(keys, m)
  {
    if keys != [] {
      var rest := keys[1..];
      assert Distinct(rest);
      SumOverUpdate(rest, m, d, v);
      assert forall j :: 0 <= j < |rest| ==> rest[j] == keys[j + 1] != keys[0];
      assert Values(keys, m[d := v]) == [m[d := v][keys[0]]] + Values(rest, m[d := v]);
      assert Values(keys, m) == [m[keys[0]]] + Values(rest, m);
    }
  }

  /** Setting one category's count to `v` changes the grand total by `v` minus the old count. */
  lemma SumAllUpdate(m: map<Dhikr, nat>, d: Dhikr, v: nat)
    requires forall e :: e in m
    ensures SumAll(m[d := v]) + m[d] == SumAll(m) + v
  {
    AdhkarListComplete(d);
    SumOverUpdate(AdhkarList, m, d, v);
  }

  /** The sum is zero exactly when every summed count is zero. */
  lemma {:induction false} SumOverZeroIff(keys: seq<Dhikr>, m: map<Dhikr, nat>)
    requires forall k :: k in keys ==> k in m
    ensures SumOver(keys, m) == 0 <==> forall k :: k in keys ==> m[k] == 0
  {
    if keys != [] {
      SumOverZeroIff(keys[1..], m);
      assert Values(keys, m) == [m[keys[0]]] + Values(keys[1..], m);
      assert forall k :: k in keys ==> k == keys[0] || k in keys[1..];
    }
  }

  /** Each summed count is at most the sum. */
  lemma {:induction false} CountAtMostSum(keys: seq<Dhikr>, m: map<Dhikr, nat>, d: Dhikr)
    requires forall k :: k in keys ==> k in m
    requires d in keys
    ensures m[d] <= SumOver(keys, m)
  {
    assert Values(keys, m) == [m[keys[0]]] + Values(keys[1..], m);
    if keys[0] != d {
      CountAtMostSum(keys[1..], m, d);
    }
  }

  /** Counts that are pointwise no larger have a sum that is no larger. */
  lemma {:induction false} SumOverMonotone(keys: seq<Dhikr>, a: map<Dhikr, nat>, b: map<Dhikr, nat>)
    requires forall k :: k in keys ==> k in a && k in b && a[k] <= b[k]
    ensures SumOver(keys, a) <= SumOver(keys, b)
  {
    if keys != [] {
      SumOverMonotone(keys[1..], a, b);
      assert Values(keys, a) == [a[keys[0]]] + Values(keys[1..], a);
      assert Values(keys, b) == [b[keys[0]]] + Values(keys[1..], b);
    }
  }

  /** Index `i` of the list holds a maximal count (missing entries read as 0), and every
      earlier category's count is strictly smaller: the earliest maximum. */
  predicate FirstMaximum(totals: map<Dhikr, nat>, i: int) {
    && 0 <= i < |AdhkarList|
    && (forall j :: 0 <= j < |AdhkarList| ==> CountOf(totals, AdhkarList[j]) <= CountOf(totals, AdhkarList[i]))
    && (forall j :: 0 <= j < i ==> CountOf(totals, AdhkarList[j]) < CountOf(totals, AdhkarList[i]))
  }

  /** The earliest maximum is unique, so the most-used category is determined by the totals. */
  lemma FirstMaximumUnique(totals: map<Dhikr, nat>, i: int, j: int)
    requires FirstMaximum(totals, i) && FirstMaximum(totals, j)
    ensures i == j
  {
    // Both counts are maximal, hence equal; a strict inequality would be needed for either to come first.
    assert CountOf(totals, AdhkarList[i]) == CountOf(totals, AdhkarList[j]);
  }

  /** The most-used search of App.js:321-328: start from the first category and replace the
      candidate only on a strictly greater count, so ties keep the earlier category. */
  method MostUsed(totals: map<Dhikr, nat>) returns (mostUsedDhikr: Dhikr, maxCount: nat)
    ensures exists i :: FirstMaximum(totals, i) && mostUsedDhikr == AdhkarList[i]
    ensures maxCount == CountOf(totals, mostUsedDhikr)
  {
    mostUsedDhikr := AdhkarList[0];
    maxCount := CountOf(totals, mostUsedDhikr);
    ghost var best := 0;
    for i := 0 to |AdhkarList|
      invariant 0 <= best < |AdhkarList|
      invariant mostUsedDhikr == AdhkarList[best] && maxCount == CountOf(totals, mostUsedDhikr)
      invariant forall j :: 0 <= j < i ==> CountOf(totals, AdhkarList[j]) <= maxCount
      invariant forall j :: 0 <= j < best ==> CountOf(totals, AdhkarList[j]) < maxCount
    {
      var dhikr := AdhkarList[i];
      if CountOf(totals, dhikr) > maxCount {
        maxCount := CountOf(totals, dhikr);
        mostUsedDhikr := dhikr;
        best := i;
      }
    }
    assert FirstMaximum(totals, best);
  }

  /** The most-used count is positive exactly when something was counted at all, and it is
      never more than the grand total. */
  lemma MaximumAgainstSum(totals: map<Dhikr, nat>, i: int)
    requires forall d :: d in totals
    requires FirstMaximum(totals, i)
    ensures totals[AdhkarList[i]] <= SumAll(totals)
    ensures totals[AdhkarList[i]] > 0 <==> SumAll(totals) > 0
  {
    CountAtMostSum(AdhkarList, totals, AdhkarList[i]);
    SumOverZeroIff(AdhkarList, totals);
    if SumAll(totals) > 0 {
      var k :| k in AdhkarList && totals[k] != 0;
      var j :| 0 <= j < |AdhkarList| && AdhkarList[j] == k;
      assert CountOf(totals, AdhkarList[j]) <= CountOf(totals, AdhkarList[i]);
    }
  }

  /** With totals A:5, B:5 and the rest 3, the first of the two tied categories is the most used. */
  lemma TieKeepsEarliest(totals: map<Dhikr, nat>)
    requires forall d :: d in totals
    requires totals[Subhanallah] == 5 && totals[Alhamdulillah] == 5
    requires forall d :: d != Subhanallah && d != Alhamdulillah ==> totals[d] == 3
    ensures FirstMaximum(totals, 0)
    ensures forall i :: FirstMaximum(totals, i) ==> i == 0
  {
  }
}
