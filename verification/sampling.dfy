/**
 Render-cost control of the scatter layer: more than 1000 rows are cut
 down to `sample(1000, random_state=42)`. pandas' sampler itself is a
 parameter: a function from (population size, sample size, seed) to the
 row positions it draws.
 */
module Sampling {

  const MaxScatterRows: nat := 1000
  const SampleSeed: int := 42

  type Sampler = (nat, nat, int) -> seq<nat>

  predicate Distinct(picks: seq<nat>)
  {
    forall i, j :: 0 <= i < j < |picks| ==> picks[i] != picks[j]
  }

  /** `picks` is a draw of `n` rows without replacement from `population` rows. */
  predicate DrawsWithoutReplacement(picks: seq<nat>, population: nat, n: nat)
  {
    |picks| == n && Distinct(picks) && InRange(picks, population)
  }

  /** `frame.take(picks)`: the rows at the drawn positions, in draw order. */
  function Take<T>(rows: seq<T>, picks: seq<nat>): (r: seq<T>)
    requires InRange(picks, |rows|)
    ensures |r| == |picks|
    ensures forall i :: 0 <= i < |picks| ==> r[i] == rows[picks[i]]
  {
    seq(|picks|, i requires 0 <= i < |picks| => rows[picks[i]])
  }

  predicate InRange(picks: seq<nat>, n: nat)
  {
    forall i :: 0 <= i < |picks| ==> picks[i] < n
  }

  lemma TakeConcat<T>(rows: seq<T>, a: seq<nat>, b: seq<nat>)
    requires InRange(a, |rows|) && InRange(b, |rows|)
    ensures InRange(a + b, |rows|)
    ensures Take(rows, a + b) == Take(rows, a) + Take(rows, b)
  {
  }

  lemma TakeFromPrefix<T>(rows: seq<T>, n: nat, picks: seq<nat>)
    requires n <= |rows| && InRange(picks, n)
    ensures Take(rows, picks) == Take(rows[..n], picks)
  {
  }

  /** Removing the draw at `k` leaves a draw of distinct positions below `last`. */
  lemma RemovePick(picks: seq<nat>, k: nat, last: nat)
    requires Distinct(picks) && InRange(picks, last + 1)
    requires k < |picks| && picks[k] == last
    ensures picks == picks[..k] + [last] + picks[k + 1..]
    ensures Distinct(picks[..k] + picks[k + 1..])
    ensures InRange(picks[..k] + picks[k + 1..], last)
  {
    var rest := picks[..k] + picks[k + 1..];
    forall i | 0 <= i < |rest|
      ensures rest[i] == picks[if i < k then i else i + 1]
    {
    }
  }

  /** Rows drawn without replacement: no row is taken more often than it occurs. */
  lemma {:induction false} TakeDistinctSubMultiset<T>(rows: seq<T>, picks: seq<nat>)
    requires Distinct(picks) && InRange(picks, |rows|)
    ensures multiset(Take(rows, picks)) <= multiset(rows)
    decreases |rows|
  {
    if |rows| > 0 {
      var last := |rows| - 1;
      var init := rows[..last];
      assert rows == init + [rows[last]];
      if k :| 0 <= k < |picks| && picks[k] == last {
        RemovePick(picks, k, last);
        var before, after := picks[..k], picks[k + 1..];
        TakeDistinctSubMultiset(init, before + after);
        TakeFromPrefix(rows, last, before + after);
        TakeConcat(rows, before, after);
        TakeConcat(rows, before, [last]);
        TakeConcat(rows, before + [last], after);
        assert Take(rows, [last]) == [rows[last]];
        assert multiset(Take(rows, picks)) == multiset(Take(init, before + after)) + multiset{rows[last]};
      } else {
        TakeDistinctSubMultiset(init, picks);
        TakeFromPrefix(rows, last, picks);
      }
    }
  }

  /** The sampler's draw for `population` rows, when the table is over the cap. */
  predicate SamplerSound(sampler: Sampler, population: nat)
  {
    population > MaxScatterRows ==> DrawsWithoutReplacement(sampler(population, MaxScatterRows, SampleSeed), population, MaxScatterRows)
  }

  /**
   The scatter layer's rows: the whole table up to the cap, otherwise the
   sampler's 1000 rows drawn with seed 42, none repeated.
   */
  function CapRows<T>(rows: seq<T>, sampler: Sampler): (r: seq<T>)
    requires SamplerSound(sampler, |rows|)
    ensures |r| == if |rows| <= MaxScatterRows then |rows| else MaxScatterRows
    ensures |rows| <= MaxScatterRows ==> r == rows
    ensures multiset(r) <= multiset(rows)
  {
    if |rows| > MaxScatterRows then
      var picks := sampler(|rows|, MaxScatterRows, SampleSeed);
      TakeDistinctSubMultiset(rows, picks);
      Take(rows, picks)
    else
      rows
  }
}
