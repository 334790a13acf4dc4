/** The storage of a digest and the pass that fills it: the loop of a merge, proved to produce the
    greedy clustering. */
module Compression {
  import opened Arithmetic
  import opened Centroids
  import opened Clustering

  /** A reserved vector of centroids and their weight. */
  class DigestBuffer {
    var values: seq<Centroid>
    var totalWeight: nat
    var capacity: nat
    const reserved: nat

    ghost predicate Valid()
      reads this
    {
      |values| <= capacity && reserved <= capacity
    }

    constructor (size: nat)
      ensures Valid() && values == [] && totalWeight == 0 && capacity == reserved == size
    {
      reserved := size;
      values, totalWeight, capacity := [], 0, size;
    }

    /** A full vector first grows to some larger capacity; the caller is told when it is full. */
    method Insert(value: nat, weight: nat) returns (needCompress: bool)
      requires Valid() && weight >= 1
      modifies this
      ensures Valid()
      ensures values == old(values) + [Centroid(value, weight)]
      ensures totalWeight == old(totalWeight) + weight
      ensures if |old(values)| == old(capacity) then capacity > old(capacity) else capacity == old(capacity)
      ensures needCompress <==> |values| == capacity
    {
      if |values| == capacity {
        var grown :| grown > capacity;
        capacity := grown;
      }
      values := values + [Centroid(value, weight)];
      totalWeight := totalWeight + weight;
      needCompress := |values| == capacity;
    }

    method Reset()
      requires Valid()
      modifies this
      ensures Valid() && values == [] && totalWeight == 0 && capacity == old(capacity)
    {
      values, totalWeight := [], 0;
    }
  }

  /** `std::round` on a value that is never negative. */
  function Round(x: real): nat
    requires x >= 0.0
  {
    (x + 0.5).Floor
  }

  // --- The state of a pass -----------------------------------------------------------------------

  ghost predicate Starts(n: nat, starts: seq<nat>) {
    && starts != []
    && starts[0] == 0
    && starts[|starts| - 1] < n
    && forall i, j :: 0 <= i < j < |starts| ==> starts[i] < starts[j]
  }

  ghost predicate RunIsClosed(s: seq<Centroid>, starts: seq<nat>, out: seq<Centroid>, limit: nat -> real, i: nat)
    requires Starts(|s|, starts) && i < |out| && i + 1 < |starts|
  {
    && StandsFor(out[i], s[starts[i]..starts[i + 1]], false)
    && RunFits(s, starts[i], starts[i + 1], limit)
    && RunIsFull(s, starts[i], starts[i + 1], limit)
  }

  /** Every run but the open one is closed, summarised and full. */
  ghost predicate Closed(s: seq<Centroid>, starts: seq<nat>, out: seq<Centroid>, limit: nat -> real)
    requires Starts(|s|, starts)
  {
    && |out| == |starts| - 1
    && forall i :: 0 <= i < |out| ==> RunIsClosed(s, starts, out, limit, i)
  }

  ghost predicate ExactMean(mean: real, weight: nat, moment: nat) {
    mean >= 0.0 && mean * weight as real == moment as real
  }

  /** The open run covers the inputs from its start up to j. */
  ghost predicate Opened(s: seq<Centroid>, lo: nat, j: nat, limit: nat -> real,
                         weightSoFar: nat, weightToAdd: nat, meanToAdd: real)
    requires lo < j <= |s|
  {
    && RunFits(s, lo, j, limit)
    && weightSoFar == Before(s, lo)
    && weightToAdd == Weight(s[lo..j]) >= 1
    && ExactMean(meanToAdd, weightToAdd, Moment(s[lo..j]))
  }

  lemma ExtendRun(s: seq<Centroid>, lo: nat, j: nat)
    requires lo <= j < |s|
    ensures Weight(s[lo..j + 1]) == Weight(s[lo..j]) + s[j].weight
    ensures Moment(s[lo..j + 1]) == Moment(s[lo..j]) + s[j].mean * s[j].weight
    ensures Before(s, j + 1) == Before(s, lo) + Weight(s[lo..j]) + s[j].weight
  {
    assert s[lo..j + 1] == s[lo..j] + [s[j]];
    SumsOfConcat(s[lo..j], [s[j]]);
    SumsOfOne(s[j]);
    assert s[..j + 1] == s[..lo] + s[lo..j + 1];
    SumsOfConcat(s[..lo], s[lo..j + 1]);
  }

  lemma Cancel(a: real, t: real)
    requires t > 0.0
    ensures a / t * t == a
  {
  }

  lemma NotNegative(a: real, t: real, product: real)
    requires t > 0.0 && a * t == product >= 0.0
    ensures a >= 0.0
  {
  }

  lemma MovedMean(mean: real, w: real, moment: real, x: real, v: real, next: real)
    requires w > 0.0 && v >= 0.0 && x >= 0.0 && moment >= 0.0 && mean * w == moment
    requires next == mean + (x - mean) * v / (w + v)
    ensures next >= 0.0 && next * (w + v) == moment + x * v
  {
    var t := w + v;
    Cancel((x - mean) * v, t);
    DistributeReal(mean, (x - mean) * v / t, t);
    DistributeReal(w, v, mean);
    DistributeReal(x - mean, mean, v);
    NotNegative(next, t, moment + x * v);
  }

  /** The incremental mean formula yields the exact mean of the longer run. */
  method MoveMean(mean: real, weight: nat, current: Centroid, ghost moment: nat) returns (next: real)
    requires weight >= 1 && ExactMean(mean, weight, moment)
    ensures ExactMean(next, weight + current.weight, moment + current.mean * current.weight)
  {
    var total := weight + current.weight;
    next := mean + (current.mean as real - mean) * current.weight as real / total as real;
    MovedMean(mean, weight as real, moment as real, current.mean as real, current.weight as real, next);
    RealProduct(current.mean, current.weight);
  }

  lemma BracketedMean(x: real, r: real, next: real, w: real, m: real)
    requires w > 0.0 && x * w == m && r <= x < next
    ensures r * w <= m < next * w
  {
    Product(r, x, w);
    StrictProduct(x, next, w);
  }

  lemma RoundBracket(mean: real, r: nat, w: nat, moment: nat)
    requires w >= 1 && ExactMean(mean, w, moment) && r as real <= mean + 0.5 < (r + 1) as real
    ensures 2 * (r * w) <= 2 * moment + w < 2 * ((r + 1) * w)
  {
    var m := moment as real + 0.5 * w as real;
    DistributeReal(mean, 0.5, w as real);
    BracketedMean(mean + 0.5, r as real, (r + 1) as real, w as real, m);
    RealProduct(r, w);
    RealProduct(r + 1, w);
  }

  lemma FloorBracket(mean: real, r: int, w: nat, moment: nat)
    requires w >= 1 && ExactMean(mean, w, moment) && r as real <= mean < (r + 1) as real
    ensures r >= 0 && r * w <= moment < (r + 1) * w
  {
    BracketedMean(mean, r as real, (r + 1) as real, w as real, moment as real);
    RealProduct(r, w);
    RealProduct(r + 1, w);
  }

  lemma RoundedMean(mean: real, run: seq<Centroid>)
    requires Weight(run) >= 1 && ExactMean(mean, Weight(run), Moment(run))
    ensures StandsFor(Centroid(Round(mean), Weight(run)), run, false)
  {
    RoundBracket(mean, Round(mean), Weight(run), Moment(run));
  }

  lemma TruncatedMean(mean: real, run: seq<Centroid>)
    requires Weight(run) >= 1 && ExactMean(mean, Weight(run), Moment(run))
    ensures mean.Floor >= 0
    ensures StandsFor(Centroid(mean.Floor, Weight(run)), run, true)
  {
    FloorBracket(mean, mean.Floor, Weight(run), Moment(run));
  }

  // --- The pass ----------------------------------------------------------------------------------

  lemma Absorb(s: seq<Centroid>, lo: nat, j: nat, limit: nat -> real,
               weightSoFar: nat, weightToAdd: nat, meanToAdd: real, next: real)
    requires lo < j < |s| && Opened(s, lo, j, limit, weightSoFar, weightToAdd, meanToAdd)
    requires (weightSoFar + weightToAdd + s[j].weight) as real <= limit(weightSoFar)
    requires ExactMean(next, weightToAdd + s[j].weight, Moment(s[lo..j]) + s[j].mean * s[j].weight)
    ensures Opened(s, lo, j + 1, limit, weightSoFar, weightToAdd + s[j].weight, next)
  {
    ExtendRun(s, lo, j);
  }

  lemma Emit(s: seq<Centroid>, starts: seq<nat>, out: seq<Centroid>, j: nat, limit: nat -> real,
             weightSoFar: nat, weightToAdd: nat, meanToAdd: real)
    requires Starts(|s|, starts) && Closed(s, starts, out, limit) && starts[|starts| - 1] < j < |s|
    requires Opened(s, starts[|starts| - 1], j, limit, weightSoFar, weightToAdd, meanToAdd)
    requires (weightSoFar + weightToAdd + s[j].weight) as real > limit(weightSoFar)
    ensures Starts(|s|, starts + [j])
    ensures Closed(s, starts + [j], out + [Centroid(Round(meanToAdd), weightToAdd)], limit)
  {
    var lo := starts[|starts| - 1];
    ExtendRun(s, lo, j);
    RoundedMean(meanToAdd, s[lo..j]);
    var starts', out' := starts + [j], out + [Centroid(Round(meanToAdd), weightToAdd)];
    forall i | 0 <= i < |out'|
      ensures RunIsClosed(s, starts', out', limit, i)
    {
      if i < |out| {
        assert RunIsClosed(s, starts, out, limit, i);
        assert starts'[i] == starts[i] && starts'[i + 1] == starts[i + 1];
      }
    }
  }

  lemma OpenAt(s: seq<Centroid>, j: nat, limit: nat -> real)
    requires Sound(s) && j < |s|
    ensures Opened(s, j, j + 1, limit, Before(s, j), s[j].weight, s[j].mean as real)
  {
    ExtendRun(s, j, j);
    RealProduct(s[j].mean, s[j].weight);
  }

  lemma Finish(s: seq<Centroid>, starts: seq<nat>, out: seq<Centroid>, limit: nat -> real,
               weightSoFar: nat, weightToAdd: nat, meanToAdd: real)
    requires Starts(|s|, starts) && Closed(s, starts, out, limit)
    requires Opened(s, starts[|starts| - 1], |s|, limit, weightSoFar, weightToAdd, meanToAdd)
    ensures meanToAdd.Floor >= 0
    ensures IsClustering(s, starts + [|s|], out + [Centroid(meanToAdd.Floor, weightToAdd)], limit)
  {
    var lo, cuts, c := starts[|starts| - 1], starts + [|s|], Centroid(meanToAdd.Floor, weightToAdd);
    TruncatedMean(meanToAdd, s[lo..|s|]);
    forall i | 0 <= i < |out + [c]|
      ensures StandsFor((out + [c])[i], s[cuts[i]..cuts[i + 1]], i == |out|)
      ensures RunFits(s, cuts[i], cuts[i + 1], limit)
      ensures i < |out| ==> RunIsFull(s, cuts[i], cuts[i + 1], limit)
    {
      if i < |out| {
        assert RunIsClosed(s, starts, out, limit, i);
        assert cuts[i] == starts[i] && cuts[i + 1] == starts[i + 1];
      } else {
        assert cuts[i] == lo && cuts[i + 1] == |s|;
      }
    }
  }

  lemma WholePrefix(s: seq<Centroid>)
    ensures Before(s, |s|) == Weight(s)
  {
    assert s[..|s|] == s;
  }

  /** The compressing loop of a merge. */
  method Compress(into: DigestBuffer, inputs: seq<Centroid>, limit: nat -> real) returns (ghost cuts: seq<nat>)
    requires into.Valid() && into.values == [] && into.totalWeight == 0
    requires inputs != [] && Sound(inputs)
    modifies into
    ensures into.Valid() && IsClustering(inputs, cuts, into.values, limit)
    ensures into.totalWeight == Weight(inputs)
  {
    var weightSoFar: nat, weightToAdd: nat, meanToAdd := 0, inputs[0].weight, inputs[0].mean as real;
    var nextLimit := limit(0);
    ghost var starts: seq<nat> := [0];
    OpenAt(inputs, 0, limit);
    for j := 1 to |inputs|
      invariant into.Valid() && into.totalWeight == weightSoFar
      invariant nextLimit == limit(weightSoFar)
      invariant Starts(|inputs|, starts) && starts[|starts| - 1] < j
      invariant Closed(inputs, starts, into.values, limit)
      invariant Opened(inputs, starts[|starts| - 1], j, limit, weightSoFar, weightToAdd, meanToAdd)
    {
      var current := inputs[j];
      if (weightSoFar + weightToAdd + current.weight) as real <= nextLimit {
        ghost var lo := starts[|starts| - 1];
        var next := MoveMean(meanToAdd, weightToAdd, current, Moment(inputs[lo..j]));
        Absorb(inputs, lo, j, limit, weightSoFar, weightToAdd, meanToAdd, next);
        weightToAdd, meanToAdd := weightToAdd + current.weight, next;
      } else {
        Emit(inputs, starts, into.values, j, limit, weightSoFar, weightToAdd, meanToAdd);
        BeforeGrows(inputs, starts[|starts| - 1], j);
        weightSoFar := weightSoFar + weightToAdd;
        nextLimit := limit(weightSoFar);
        var _ := into.Insert(Round(meanToAdd), weightToAdd);
        OpenAt(inputs, j, limit);
        starts := starts + [j];
        weightToAdd, meanToAdd := current.weight, current.mean as real;
      }
    }
    Finish(inputs, starts, into.values, limit, weightSoFar, weightToAdd, meanToAdd);
    BeforeGrows(inputs, starts[|starts| - 1], |inputs|);
    WholePrefix(inputs);
    var _ := into.Insert(meanToAdd.Floor, weightToAdd);
    cuts := starts + [|inputs|];
  }
}
