/** What one merge pass does to its sorted input: cut it greedily into consecutive runs under a
    limit on the weight each run may reach, and replace every run by one centroid.

    The limit is an arbitrary function of the weight that precedes the run. */
module Clustering {
  import opened Arithmetic
  import opened Centroids

  /** The weight of the first k inputs. */
  ghost function Before(s: seq<Centroid>, k: nat): nat
    requires k <= |s|
  {
    Weight(s[..k])
  }

  /** `cuts` marks the start of every run, followed by the end of the input. */
  ghost predicate Cuts(n: nat, cuts: seq<nat>) {
    && |cuts| >= 2
    && cuts[0] == 0
    && cuts[|cuts| - 1] == n
    && forall i, j :: 0 <= i < j < |cuts| ==> cuts[i] < cuts[j]
  }

  /** c stands for `run`: all its weight, at the nearest integer to its exact mean (halves up), or
      at the integer part of its exact mean when the run is the last one of the pass. */
  ghost predicate StandsFor(c: Centroid, run: seq<Centroid>, final: bool) {
    var w := Weight(run);
    && c.weight == w
    && if final then c.mean * w <= Moment(run) < (c.mean + 1) * w
       else 2 * (c.mean * w) <= 2 * Moment(run) + w < 2 * ((c.mean + 1) * w)
  }

  ghost predicate Summarises(s: seq<Centroid>, cuts: seq<nat>, out: seq<Centroid>)
    requires Cuts(|s|, cuts)
  {
    && |out| == |cuts| - 1
    && forall i :: 0 <= i < |out| ==> StandsFor(out[i], s[cuts[i]..cuts[i + 1]], i == |out| - 1)
  }

  /** A run of two or more inputs stays under the limit that held when the run was opened. */
  ghost predicate RunFits(s: seq<Centroid>, lo: nat, hi: nat, limit: nat -> real)
    requires lo < hi <= |s|
  {
    hi - lo >= 2 ==> Before(s, hi) as real <= limit(Before(s, lo))
  }

  /** Taking one more input would have broken that limit. */
  ghost predicate RunIsFull(s: seq<Centroid>, lo: nat, hi: nat, limit: nat -> real)
    requires lo < hi < |s|
  {
    Before(s, hi + 1) as real > limit(Before(s, lo))
  }

  ghost predicate Greedy(s: seq<Centroid>, cuts: seq<nat>, limit: nat -> real)
    requires Cuts(|s|, cuts)
  {
    && (forall i :: 0 <= i < |cuts| - 1 ==> RunFits(s, cuts[i], cuts[i + 1], limit))
    && (forall i :: 0 <= i < |cuts| - 2 ==> RunIsFull(s, cuts[i], cuts[i + 1], limit))
  }

  ghost predicate IsClustering(s: seq<Centroid>, cuts: seq<nat>, out: seq<Centroid>, limit: nat -> real) {
    Cuts(|s|, cuts) && Summarises(s, cuts, out) && Greedy(s, cuts, limit)
  }

  // --- The partition is the only greedy one -------------------------------------------------------

  lemma {:induction false} BeforeGrows(s: seq<Centroid>, a: nat, b: nat)
    requires Sound(s) && a <= b <= |s|
    ensures Before(s, a) + (b - a) <= Before(s, b)
    ensures Before(s, b) == Before(s, a) + Weight(s[a..b])
  {
    assert s[..b] == s[..a] + s[a..b];
    SumsOfConcat(s[..a], s[a..b]);
    WeightIsPositive(s[a..b]);
  }

  lemma NoEarlierCut(s: seq<Centroid>, limit: nat -> real, lo: nat, c: nat, d: nat)
    requires Sound(s) && lo < c < d <= |s|
    requires RunIsFull(s, lo, c, limit)
    ensures !RunFits(s, lo, d, limit)
  {
    BeforeGrows(s, c + 1, d);
  }

  lemma {:induction false} CutsAgree(s: seq<Centroid>, limit: nat -> real, c: seq<nat>, d: seq<nat>, i: nat)
    requires Sound(s) && Cuts(|s|, c) && Greedy(s, c, limit) && Cuts(|s|, d) && Greedy(s, d, limit)
    requires i < |c|
    ensures i < |d| && c[..i + 1] == d[..i + 1]
  {
    if i == 0 {
    } else {
      CutsAgree(s, limit, c, d, i - 1);
      assert c[i - 1] == c[..i][i - 1] == d[..i][i - 1] == d[i - 1];
      assert c[i - 1] < c[i] <= |s|;
      assert i - 1 < |d| - 1;
      assert RunFits(s, c[i - 1], c[i], limit) && RunFits(s, d[i - 1], d[i], limit);
      if c[i] < d[i] {
        assert i < |c| - 1;
        assert RunIsFull(s, c[i - 1], c[i], limit);
        NoEarlierCut(s, limit, c[i - 1], c[i], d[i]);
      } else if d[i] < c[i] {
        assert i < |d| - 1;
        assert RunIsFull(s, d[i - 1], d[i], limit);
        NoEarlierCut(s, limit, c[i - 1], d[i], c[i]);
      }
      assert c[..i + 1] == c[..i] + [c[i]];
      assert d[..i + 1] == d[..i] + [d[i]];
    }
  }

  lemma SameCuts(s: seq<Centroid>, limit: nat -> real, c: seq<nat>, d: seq<nat>)
    requires Sound(s) && Cuts(|s|, c) && Greedy(s, c, limit) && Cuts(|s|, d) && Greedy(s, d, limit)
    ensures c == d
  {
    CutsAgree(s, limit, c, d, |c| - 1);
    CutsAgree(s, limit, d, c, |d| - 1);
    assert c[..|c|] == c && d[..|d|] == d;
  }

  lemma MeanNotBelow(a: Centroid, b: Centroid, run: seq<Centroid>, final: bool)
    requires StandsFor(a, run, final) && StandsFor(b, run, final)
    ensures a.mean >= b.mean
  {
    if a.mean < b.mean {
      Times(a.mean + 1, b.mean, Weight(run));
    }
  }

  /** The sorted input and the limit leave a pass no choice at all. */
  lemma ClusteringIsUnique(s: seq<Centroid>, limit: nat -> real,
                           c: seq<nat>, out: seq<Centroid>, d: seq<nat>, out': seq<Centroid>)
    requires Sound(s) && IsClustering(s, c, out, limit) && IsClustering(s, d, out', limit)
    ensures c == d && out == out'
  {
    SameCuts(s, limit, c, d);
    forall i | 0 <= i < |out|
      ensures out[i] == out'[i]
    {
      MeanNotBelow(out[i], out'[i], s[c[i]..c[i + 1]], i == |out| - 1);
      MeanNotBelow(out'[i], out[i], s[c[i]..c[i + 1]], i == |out| - 1);
    }
  }

  // --- Tapered limits ----------------------------------------------------------------------------

  /** What the scale function guarantees in real arithmetic, unless the capacity is tiny: no run may
      reach the total weight, and the first run may not take a second point. */
  ghost predicate Tapered(limit: nat -> real, total: nat) {
    limit(0) < 2.0 && forall w :: 0 <= w < total ==> limit(w) < total as real
  }

  lemma AloneStands(c: Centroid, x: Centroid, final: bool)
    requires StandsFor(c, [x], final) && x.weight >= 1
    ensures c == x
  {
    SumsOfOne(x);
    if c.mean < x.mean {
      Times(c.mean + 1, x.mean, x.weight);
    } else if x.mean < c.mean {
      Times(x.mean + 1, c.mean, x.weight);
      NextProduct(x.mean, x.weight);
    }
  }

  /** A centroid of weight one is an input that no other was clustered with. */
  lemma LightStands(c: Centroid, run: seq<Centroid>, final: bool)
    requires StandsFor(c, run, final) && Sound(run) && run != [] && c.weight == 1
    ensures run == [c]
  {
    WeightIsPositive(run);
    assert run == [run[0]] && run[0] in run;
    AloneStands(c, run[0], final);
  }

  lemma RunsAreInside(s: seq<Centroid>, cuts: seq<nat>, i: nat)
    requires Sound(s) && Cuts(|s|, cuts) && i < |cuts| - 1
    ensures cuts[i] < cuts[i + 1] <= |s|
    ensures Sound(s[cuts[i]..cuts[i + 1]]) && Weight(s[cuts[i]..cuts[i + 1]]) > 0
  {
    WeightIsPositive(s[cuts[i]..cuts[i + 1]]);
  }

  lemma LightOutputs(s: seq<Centroid>, cuts: seq<nat>, out: seq<Centroid>)
    requires Sound(s) && Cuts(|s|, cuts) && Summarises(s, cuts, out)
    ensures forall c :: c in out && c.weight == 1 ==> c in s
  {
    forall c | c in out && c.weight == 1
      ensures c in s
    {
      var i :| 0 <= i < |out| && out[i] == c;
      RunsAreInside(s, cuts, i);
      var run := s[cuts[i]..cuts[i + 1]];
      LightStands(c, run, i == |out| - 1);
      assert run[0] == s[cuts[i]];
    }
  }

  lemma FirstRunIsAlone(s: seq<Centroid>, cuts: seq<nat>, limit: nat -> real)
    requires Sound(s) && s != [] && Cuts(|s|, cuts) && Greedy(s, cuts, limit) && Tapered(limit, Weight(s))
    ensures cuts[1] == 1
  {
    assert RunFits(s, cuts[0], cuts[0 + 1], limit) && cuts[0] < cuts[1];
    BeforeGrows(s, 0, cuts[1]);
  }

  lemma LastRunIsAlone(s: seq<Centroid>, cuts: seq<nat>, limit: nat -> real)
    requires Sound(s) && s != [] && Cuts(|s|, cuts) && Greedy(s, cuts, limit) && Tapered(limit, Weight(s))
    ensures cuts[|cuts| - 2] == |s| - 1
  {
    var k := |cuts| - 2;
    assert RunFits(s, cuts[k], cuts[k + 1], limit) && cuts[k] < cuts[k + 1];
    BeforeGrows(s, cuts[k], |s|);
    assert s[..|s|] == s;
  }

  /** Under a tapered limit both ends of the sorted input come out as they went in. */
  lemma EndsStandAlone(s: seq<Centroid>, cuts: seq<nat>, out: seq<Centroid>, limit: nat -> real)
    requires Sound(s) && s != [] && IsClustering(s, cuts, out, limit) && Tapered(limit, Weight(s))
    ensures out != [] && out[0] == s[0] && out[|out| - 1] == s[|s| - 1]
  {
    var k := |cuts| - 2;
    FirstRunIsAlone(s, cuts, limit);
    LastRunIsAlone(s, cuts, limit);
    assert s[cuts[0]..cuts[0 + 1]] == [s[0]] && s[cuts[k]..cuts[k + 1]] == [s[|s| - 1]];
    assert s[0] in s && s[|s| - 1] in s;
    AloneStands(out[0], s[0], 0 == |out| - 1);
    AloneStands(out[k], s[|s| - 1], true);
  }

  // --- Hull and order ----------------------------------------------------------------------------

  lemma {:induction false} MomentWithin(run: seq<Centroid>, lo: nat, hi: nat)
    requires Within(run, lo, hi)
    ensures lo * Weight(run) <= Moment(run) <= hi * Weight(run)
  {
    if run == [] {
    } else {
      var front, last := run[..|run| - 1], run[|run| - 1];
      assert last in run;
      MomentWithin(front, lo, hi);
      Times(lo, last.mean, last.weight);
      Times(last.mean, hi, last.weight);
      DistributeLeft(lo, Weight(front), last.weight);
      DistributeLeft(hi, Weight(front), last.weight);
    }
  }

  lemma MeanNotUnder(c: Centroid, run: seq<Centroid>, final: bool, lo: nat)
    requires StandsFor(c, run, final) && lo * Weight(run) <= Moment(run)
    ensures lo <= c.mean
  {
    if c.mean < lo {
      Times(c.mean + 1, lo, Weight(run));
    }
  }

  lemma MeanNotOver(c: Centroid, run: seq<Centroid>, final: bool, hi: nat)
    requires StandsFor(c, run, final) && Weight(run) > 0 && Moment(run) <= hi * Weight(run)
    ensures c.mean <= hi
  {
    if hi < c.mean {
      Times(hi + 1, c.mean, Weight(run));
      NextProduct(hi, Weight(run));
    }
  }

  /** Rounding and truncation never push a mean out of the range of the inputs it stands for. */
  lemma MeanInHull(c: Centroid, run: seq<Centroid>, final: bool, lo: nat, hi: nat)
    requires StandsFor(c, run, final) && Weight(run) > 0 && Within(run, lo, hi)
    ensures lo <= c.mean <= hi
  {
    MomentWithin(run, lo, hi);
    MeanNotUnder(c, run, final, lo);
    MeanNotOver(c, run, final, hi);
  }

  lemma OutputInHull(s: seq<Centroid>, cuts: seq<nat>, out: seq<Centroid>, lo: nat, hi: nat)
    requires Sound(s) && Cuts(|s|, cuts) && Summarises(s, cuts, out) && Within(s, lo, hi)
    ensures Within(out, lo, hi)
    ensures forall c :: c in out ==> c.weight >= 1
  {
    forall c | c in out
      ensures lo <= c.mean <= hi && c.weight >= 1
    {
      var i :| 0 <= i < |out| && out[i] == c;
      RunsAreInside(s, cuts, i);
      MeanInHull(c, s[cuts[i]..cuts[i + 1]], i == |out| - 1, lo, hi);
    }
  }

  /** Every output mean lies between the first and the last input of its own run. */
  lemma MeanBetweenEnds(s: seq<Centroid>, cuts: seq<nat>, out: seq<Centroid>, i: nat)
    requires Sound(s) && Cuts(|s|, cuts) && Summarises(s, cuts, out) && i < |out|
    ensures 0 <= cuts[i] < cuts[i + 1] <= |s|
    ensures Ascending(s) ==> s[cuts[i]].mean <= out[i].mean <= s[cuts[i + 1] - 1].mean
    ensures Descending(s) ==> s[cuts[i]].mean >= out[i].mean >= s[cuts[i + 1] - 1].mean
  {
    RunsAreInside(s, cuts, i);
    var run := s[cuts[i]..cuts[i + 1]];
    var a, b := s[cuts[i]].mean, s[cuts[i + 1] - 1].mean;
    if Ascending(s) {
      assert Within(run, a, b);
      MeanInHull(out[i], run, i == |out| - 1, a, b);
    }
    if Descending(s) {
      assert Within(run, b, a);
      MeanInHull(out[i], run, i == |out| - 1, b, a);
    }
  }

  lemma OutputKeepsOrder(s: seq<Centroid>, cuts: seq<nat>, out: seq<Centroid>)
    requires Sound(s) && Cuts(|s|, cuts) && Summarises(s, cuts, out)
    ensures Ascending(s) ==> Ascending(out)
    ensures Descending(s) ==> Descending(out)
  {
    forall i, j | 0 <= i < j < |out|
      ensures Ascending(s) ==> out[i].mean <= out[j].mean
      ensures Descending(s) ==> out[i].mean >= out[j].mean
    {
      MeanBetweenEnds(s, cuts, out, i);
      MeanBetweenEnds(s, cuts, out, j);
      assert cuts[i + 1] <= cuts[j];
    }
  }

  // --- Conservation ------------------------------------------------------------------------------

  /** Rounding moves a run's weighted sum by at most half the run's weight. */
  lemma RoundingDrift(c: Centroid, run: seq<Centroid>)
    requires StandsFor(c, run, false)
    ensures 2 * Abs(c.mean * c.weight - Moment(run)) <= Weight(run)
  {
    NextProduct(c.mean, Weight(run));
  }

  /** Truncation moves the last run's weighted sum by less than its weight. */
  lemma TruncationDrift(c: Centroid, run: seq<Centroid>)
    requires StandsFor(c, run, true)
    ensures Abs(c.mean * c.weight - Moment(run)) < Weight(run)
  {
    NextProduct(c.mean, Weight(run));
  }

  lemma DriftOfRun(before: int, drift: int, weight: nat, more: nat)
    requires 2 * Abs(before) <= weight && 2 * Abs(drift) <= more
    ensures 2 * Abs(before + drift) <= weight + more
  {
    AbsOfSum(before, drift);
  }

  lemma NextDrift(c: Centroid, run: seq<Centroid>, left: nat, right: nat, weight: nat)
    requires StandsFor(c, run, false) && 2 * Abs(left - right) <= weight
    ensures 2 * Abs(left + c.mean * c.weight - (right + Moment(run))) <= weight + Weight(run)
  {
    RoundingDrift(c, run);
    DriftOfRun(left - right, c.mean * c.weight - Moment(run), weight, Weight(run));
  }

  /** What the first i output centroids and the inputs they stand for have in common. */
  ghost predicate Balanced(s: seq<Centroid>, cut: nat, out: seq<Centroid>)
    requires cut <= |s|
  {
    && Weight(out) == Before(s, cut)
    && 2 * Abs(Moment(out) - Moment(s[..cut])) <= Before(s, cut)
  }

  lemma ExtendPrefix(s: seq<Centroid>, cuts: seq<nat>, out: seq<Centroid>, i: nat)
    requires Cuts(|s|, cuts) && |out| == |cuts| - 1 && i < |out|
    ensures cuts[i] < cuts[i + 1] <= |s|
    ensures Before(s, cuts[i + 1]) == Before(s, cuts[i]) + Weight(s[cuts[i]..cuts[i + 1]])
    ensures Moment(s[..cuts[i + 1]]) == Moment(s[..cuts[i]]) + Moment(s[cuts[i]..cuts[i + 1]])
    ensures Weight(out[..i + 1]) == Weight(out[..i]) + out[i].weight
    ensures Moment(out[..i + 1]) == Moment(out[..i]) + out[i].mean * out[i].weight
  {
    assert s[..cuts[i + 1]] == s[..cuts[i]] + s[cuts[i]..cuts[i + 1]];
    SumsOfConcat(s[..cuts[i]], s[cuts[i]..cuts[i + 1]]);
    assert out[..i + 1][..i] == out[..i];
  }

  lemma NextBalanced(s: seq<Centroid>, cuts: seq<nat>, out: seq<Centroid>, i: nat)
    requires Cuts(|s|, cuts) && Summarises(s, cuts, out) && i + 1 < |out|
    requires cuts[i] <= |s| && Balanced(s, cuts[i], out[..i])
    ensures cuts[i + 1] <= |s| && Balanced(s, cuts[i + 1], out[..i + 1])
  {
    ExtendPrefix(s, cuts, out, i);
    NextDrift(out[i], s[cuts[i]..cuts[i + 1]], Moment(out[..i]), Moment(s[..cuts[i]]), Before(s, cuts[i]));
  }

  lemma {:induction false} PrefixSums(s: seq<Centroid>, cuts: seq<nat>, out: seq<Centroid>, i: nat)
    requires Cuts(|s|, cuts) && Summarises(s, cuts, out) && i < |out|
    ensures cuts[i] <= |s| && Balanced(s, cuts[i], out[..i])
  {
    if i == 0 {
    } else {
      PrefixSums(s, cuts, out, i - 1);
      NextBalanced(s, cuts, out, i - 1);
    }
  }

  /** No weight is lost or invented, and integer means drift the weighted sum by less than the
      total weight. */
  lemma PassConserves(s: seq<Centroid>, cuts: seq<nat>, out: seq<Centroid>)
    requires Cuts(|s|, cuts) && Summarises(s, cuts, out)
    ensures Weight(out) == Weight(s)
    ensures Abs(Moment(out) - Moment(s)) < Weight(s)
  {
    var n := |out| - 1;
    PrefixSums(s, cuts, out, n);
    ExtendPrefix(s, cuts, out, n);
    assert out[..n + 1] == out && s[..cuts[n + 1]] == s;
    TruncationDrift(out[n], s[cuts[n]..cuts[n + 1]]);
    AbsOfSum(Moment(out[..n]) - Moment(s[..cuts[n]]), out[n].mean * out[n].weight - Moment(s[cuts[n]..cuts[n + 1]]));
  }
}
