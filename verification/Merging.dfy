/** The relation between the list a merge is given and the list it leaves behind. */
module Merging {
  import opened Arithmetic
  import opened Sorting
  import opened Centroids
  import opened Clustering

  function ByMean(c: Centroid): int {
    c.mean
  }

  function ByMeanDown(c: Centroid): int {
    -(c.mean as int)
  }

  lemma SortedAscending(cs: seq<Centroid>)
    requires SortedBy(cs, ByMean)
    ensures Ascending(cs)
  {
    assert forall i, j :: 0 <= i < j < |cs| ==> ByMean(cs[i]) <= ByMean(cs[j]);
  }

  lemma SortedDescending(cs: seq<Centroid>)
    requires SortedBy(cs, ByMeanDown)
    ensures Descending(cs)
  {
    assert forall i, j :: 0 <= i < j < |cs| ==> ByMeanDown(cs[i]) <= ByMeanDown(cs[j]);
  }

  /** Everything a merge does to the list it is given. */
  ghost predicate IsMergeOf(input: seq<Centroid>, forward: bool, limit: nat -> real,
                            sorted: seq<Centroid>, cuts: seq<nat>, out: seq<Centroid>,
                            result: seq<Centroid>) {
    && multiset(sorted) == multiset(input)
    && (if forward then Ascending(sorted) else Descending(sorted))
    && IsClustering(sorted, cuts, out, limit)
    && (if forward then result == out else multiset(result) == multiset(out))
    && Ascending(result)
  }

  // --- What any merge guarantees, in either direction ---------------------------------------------

  lemma SoundRearranged(a: seq<Centroid>, b: seq<Centroid>)
    requires multiset(a) == multiset(b) && Sound(a)
    ensures Sound(b)
    ensures forall lo, hi :: Within(a, lo, hi) ==> Within(b, lo, hi)
  {
    Rearranged(a, b);
  }

  lemma {:induction false} NoMoreCutsThanInputs(n: nat, cuts: seq<nat>, i: nat)
    requires Cuts(n, cuts) && i < |cuts|
    ensures cuts[i] >= i
  {
    if i == 0 {
    } else {
      NoMoreCutsThanInputs(n, cuts, i - 1);
    }
  }

  /** A merge conserves the weight, stays in the hull, drifts the weighted sum by less than the
      weight, and never needs more room than its input did. */
  lemma MergeConserves(input: seq<Centroid>, forward: bool, limit: nat -> real,
                       sorted: seq<Centroid>, cuts: seq<nat>, out: seq<Centroid>, result: seq<Centroid>)
    requires Sound(input) && IsMergeOf(input, forward, limit, sorted, cuts, out, result)
    ensures Weight(result) == Weight(input)
    ensures Abs(Moment(result) - Moment(input)) < Weight(input)
    ensures 1 <= |result| <= |input|
  {
    SumsOfRearranged(sorted, input);
    SumsOfRearranged(result, out);
    PassConserves(sorted, cuts, out);
    Rearranged(result, out);
    Rearranged(sorted, input);
    NoMoreCutsThanInputs(|sorted|, cuts, |cuts| - 1);
  }

  lemma MergeInHull(input: seq<Centroid>, forward: bool, limit: nat -> real,
                    sorted: seq<Centroid>, cuts: seq<nat>, out: seq<Centroid>, result: seq<Centroid>,
                    lo: nat, hi: nat)
    requires Sound(input) && Within(input, lo, hi)
    requires IsMergeOf(input, forward, limit, sorted, cuts, out, result)
    ensures Within(result, lo, hi)
    ensures hi <= UINT_MAX ==> Sound(result)
  {
    SoundRearranged(input, sorted);
    OutputInHull(sorted, cuts, out, lo, hi);
    Rearranged(result, out);
  }

  lemma EndsAreExtreme(sorted: seq<Centroid>, cs: seq<Centroid>)
    requires multiset(sorted) == multiset(cs) && sorted != []
    ensures sorted[0] in cs && sorted[|sorted| - 1] in cs
    ensures Ascending(sorted) ==> forall c :: c in cs ==> sorted[0].mean <= c.mean <= sorted[|sorted| - 1].mean
    ensures Descending(sorted) ==> forall c :: c in cs ==> sorted[0].mean >= c.mean >= sorted[|sorted| - 1].mean
  {
    Rearranged(sorted, cs);
    forall c | c in cs
      ensures exists i :: 0 <= i < |sorted| && sorted[i] == c
    {
      assert c in sorted;
    }
  }

  /** A merge makes no new centroid of weight one. */
  lemma MergeKeepsLight(input: seq<Centroid>, forward: bool, limit: nat -> real,
                        sorted: seq<Centroid>, cuts: seq<nat>, out: seq<Centroid>, result: seq<Centroid>)
    requires Sound(input) && IsMergeOf(input, forward, limit, sorted, cuts, out, result)
    ensures forall c :: c in result && c.weight == 1 ==> c in input
  {
    SoundRearranged(input, sorted);
    Rearranged(sorted, input);
    Rearranged(result, out);
    LightOutputs(sorted, cuts, out);
  }

  /** Under a tapered limit the lowest and the highest centroid survive a merge as they are. */
  lemma MergeKeepsEnds(input: seq<Centroid>, forward: bool, limit: nat -> real,
                       sorted: seq<Centroid>, cuts: seq<nat>, out: seq<Centroid>, result: seq<Centroid>)
    requires Sound(input) && input != [] && IsMergeOf(input, forward, limit, sorted, cuts, out, result)
    requires Tapered(limit, Weight(input))
    ensures sorted != [] && sorted[0] in result && sorted[|sorted| - 1] in result
  {
    SoundRearranged(input, sorted);
    Rearranged(sorted, input);
    Rearranged(result, out);
    SumsOfRearranged(sorted, input);
    EndsStandAlone(sorted, cuts, out, limit);
    assert out[0] in out && out[|out| - 1] in out;
  }

  lemma MergeDone(input: seq<Centroid>, forward: bool, limit: nat -> real,
                  sorted: seq<Centroid>, cuts: seq<nat>, out: seq<Centroid>, result: seq<Centroid>)
    requires Sound(input)
    requires multiset(sorted) == multiset(input) && (if forward then Ascending(sorted) else Descending(sorted))
    requires IsClustering(sorted, cuts, out, limit)
    requires if forward then result == out else multiset(result) == multiset(out) && SortedBy(result, ByMean)
    ensures IsMergeOf(input, forward, limit, sorted, cuts, out, result)
    ensures Weight(result) == Weight(input) && |result| <= |input| && Sound(result)
  {
    SoundRearranged(input, sorted);
    if forward {
      OutputKeepsOrder(sorted, cuts, out);
    } else {
      SortedAscending(result);
    }
    MergeConserves(input, forward, limit, sorted, cuts, out, result);
    MergeInHull(input, forward, limit, sorted, cuts, out, result, 0, UINT_MAX);
  }
}
