/** The cumulative distribution query of a digest. */
module Cdf {
  import opened Arithmetic
  import opened Centroids
  import opened Quantile

  /** The position of x between two neighbours, counted in points. */
  function Inside(left: Centroid, right: Centroid, weightSoFar: nat, x: nat): real
    requires left.mean <= x < right.mean
  {
    var base := (weightSoFar + left.weight / 2) as real;
    Lerp(base, base + Delta(left, right) as real, (x - left.mean) as real / (right.mean - left.mean) as real)
  }

  /** The search for the bracketing pair, from the i-th centroid on. */
  function CdfFrom(values: seq<Centroid>, i: nat, weightSoFar: nat, total: nat, x: nat): real
    requires i < |values| && total > 0
    decreases |values| - i
  {
    if i + 1 == |values| then (if x == values[i].mean then 1.0 - 0.5 / total as real else 0.0)
    else if values[i].mean <= x < values[i + 1].mean then
      Inside(values[i], values[i + 1], weightSoFar, x) / total as real
    else CdfFrom(values, i + 1, weightSoFar + values[i].weight, total, x)
  }

  /** Below the first mean; the ratio of the two differences is an integer division. */
  function LowTail(first: Centroid, lo: nat, total: nat, x: nat): real
    requires total > 0
  {
    var span := Wrap(first.mean - lo);
    if span > 0 then
      Lerp(1.0, Wrap(first.weight / 2 - 1) as real, Quotient(Wrap(x - lo), span) as real) / total as real
    else 0.0
  }

  /** Above the last mean; both divisions are integer divisions. */
  function HighTail(last: Centroid, hi: nat, total: nat, x: nat): real
    requires total > 0
  {
    var span := Wrap(hi - last.mean);
    if span > 0 then
      1.0 - Lerp(1.0, Wrap(last.weight / 2 - 1) as real, Quotient(Quotient(Wrap(hi - x), span), total) as real)
    else 1.0
  }

  function CdfOf(values: seq<Centroid>, total: nat, lo: nat, hi: nat, x: nat): real
    requires |values| >= 2 ==> total > 0
  {
    if values == [] then 1.0
    else if |values| == 1 then
      if x < lo then 0.0
      else if x > hi then 1.0
      else 0.5   // the test before the last return always succeeds here
    else if x < values[0].mean then LowTail(values[0], lo, total, x)
    else if x > values[|values| - 1].mean then HighTail(values[|values| - 1], hi, total, x)
    else CdfFrom(values, 0, 0, total, x)
  }

  method SearchCdf(values: seq<Centroid>, total: nat, x: nat) returns (cdf: real)
    requires values != [] && total > 0
    ensures cdf == CdfFrom(values, 0, 0, total, x)
  {
    var weightSoFar: nat := 0;
    for i := 0 to |values| - 1
      invariant CdfFrom(values, i, weightSoFar, total, x) == CdfFrom(values, 0, 0, total, x)
    {
      var left, right := values[i], values[i + 1];
      if left.mean <= x < right.mean {
        return Inside(left, right, weightSoFar, x) / total as real;
      }
      weightSoFar := weightSoFar + left.weight;
    }
    if x == values[|values| - 1].mean {
      return 1.0 - 0.5 / total as real;
    }
    return 0.0;
  }

  // --- The interior ------------------------------------------------------------------------------

  /** The points certainly at or below the i-th centroid. */
  function Floored(values: seq<Centroid>, i: nat, weightSoFar: nat): nat
    requires i < |values|
  {
    weightSoFar + values[i].weight / 2
  }

  /** The interior answer, counted in points. */
  function PointsFrom(values: seq<Centroid>, i: nat, weightSoFar: nat, total: nat, x: nat): real
    requires i < |values|
    decreases |values| - i
  {
    if i + 1 == |values| then total as real - 0.5
    else if values[i].mean <= x < values[i + 1].mean then Inside(values[i], values[i + 1], weightSoFar, x)
    else PointsFrom(values, i + 1, weightSoFar + values[i].weight, total, x)
  }

  ghost predicate Places(values: seq<Centroid>, i: nat, weightSoFar: nat, total: nat) {
    && i < |values| && Ascending(values) && Sound(values)
    && weightSoFar == Weight(values[..i]) && total == Weight(values)
  }

  lemma NextPlace(values: seq<Centroid>, i: nat, weightSoFar: nat, total: nat)
    requires Places(values, i, weightSoFar, total)
    ensures values[i].weight >= 1 && weightSoFar + values[i].weight <= total
    ensures i + 1 < |values| ==> Places(values, i + 1, weightSoFar + values[i].weight, total)
    ensures i + 1 == |values| ==> weightSoFar + values[i].weight == total
  {
    assert values[i] in values;
    WeightOfPrefix(values, i);
    assert values[..|values|] == values;
  }

  lemma InsideBounds(left: Centroid, right: Centroid, weightSoFar: nat, x: nat)
    requires left.mean <= x < right.mean
    ensures (weightSoFar + left.weight / 2) as real <= Inside(left, right, weightSoFar, x)
    ensures Inside(left, right, weightSoFar, x) <= (weightSoFar + left.weight + right.weight / 2) as real
  {
    var base, delta := weightSoFar + left.weight / 2, Delta(left, right);
    var t := (x - left.mean) as real / (right.mean - left.mean) as real;
    Fraction((x - left.mean) as real, (right.mean - left.mean) as real);
    LerpBounds(base as real, base as real + delta as real, t);
    assert base + delta <= weightSoFar + left.weight + right.weight / 2;
  }

  lemma InsideMonotone(left: Centroid, right: Centroid, weightSoFar: nat, x: nat, y: nat)
    requires left.mean <= x <= y < right.mean
    ensures Inside(left, right, weightSoFar, x) <= Inside(left, right, weightSoFar, y)
  {
    var n, m, d := (x - left.mean) as real, (y - left.mean) as real, (right.mean - left.mean) as real;
    Fraction(n, d);
    Fraction(m, d);
    FractionGrows(n, m, d);
    var base := (weightSoFar + left.weight / 2) as real;
    LerpMonotone(base, base + Delta(left, right) as real, n / d, m / d);
  }

  lemma {:induction false} PointsBounds(values: seq<Centroid>, i: nat, weightSoFar: nat, total: nat, x: nat)
    requires Places(values, i, weightSoFar, total)
    requires values[i].mean <= x <= values[|values| - 1].mean
    ensures Floored(values, i, weightSoFar) as real <= PointsFrom(values, i, weightSoFar, total, x) <= total as real
    decreases |values| - i
  {
    NextPlace(values, i, weightSoFar, total);
    if i + 1 == |values| {
    } else {
      NextPlace(values, i + 1, weightSoFar + values[i].weight, total);
      if x < values[i + 1].mean {
        InsideBounds(values[i], values[i + 1], weightSoFar, x);
      } else {
        PointsBounds(values, i + 1, weightSoFar + values[i].weight, total, x);
      }
    }
  }

  lemma {:induction false} PointsMonotone(values: seq<Centroid>, i: nat, weightSoFar: nat, total: nat, x: nat, y: nat)
    requires Places(values, i, weightSoFar, total)
    requires values[i].mean <= x <= y <= values[|values| - 1].mean
    ensures PointsFrom(values, i, weightSoFar, total, x) <= PointsFrom(values, i, weightSoFar, total, y)
    decreases |values| - i
  {
    NextPlace(values, i, weightSoFar, total);
    if i + 1 == |values| {
    } else {
      if y < values[i + 1].mean {
        InsideMonotone(values[i], values[i + 1], weightSoFar, x, y);
      } else if x < values[i + 1].mean {
        InsideBounds(values[i], values[i + 1], weightSoFar, x);
        PointsBounds(values, i + 1, weightSoFar + values[i].weight, total, y);
      } else {
        PointsMonotone(values, i + 1, weightSoFar + values[i].weight, total, x, y);
      }
    }
  }

  lemma {:induction false} CdfIsPoints(values: seq<Centroid>, i: nat, weightSoFar: nat, total: nat, x: nat)
    requires i < |values| && total > 0 && Ascending(values)
    requires values[i].mean <= x <= values[|values| - 1].mean
    ensures CdfFrom(values, i, weightSoFar, total, x) == PointsFrom(values, i, weightSoFar, total, x) / total as real
    decreases |values| - i
  {
    if i + 1 == |values| {
      assert 1.0 - 0.5 / total as real == (total as real - 0.5) / total as real;
    } else if x >= values[i + 1].mean {
      CdfIsPoints(values, i + 1, weightSoFar + values[i].weight, total, x);
    }
  }

  lemma StartPlace(values: seq<Centroid>)
    requires values != [] && Ascending(values) && Sound(values)
    ensures Places(values, 0, 0, Weight(values)) && Weight(values) > 0
  {
    assert values[..0] == [];
    NextPlace(values, 0, 0, Weight(values));
  }

  /** Between the first and the last mean the answer is a probability and grows with x. */
  lemma InteriorMonotone(values: seq<Centroid>, x: nat, y: nat)
    requires |values| >= 2 && Ascending(values) && Sound(values)
    requires values[0].mean <= x <= y <= values[|values| - 1].mean
    ensures Weight(values) > 0
    ensures 0.0 <= CdfFrom(values, 0, 0, Weight(values), x) <= CdfFrom(values, 0, 0, Weight(values), y) <= 1.0
  {
    StartPlace(values);
    var total := Weight(values);
    CdfIsPoints(values, 0, 0, total, x);
    CdfIsPoints(values, 0, 0, total, y);
    PointsBounds(values, 0, 0, total, x);
    PointsBounds(values, 0, 0, total, y);
    PointsMonotone(values, 0, 0, total, x, y);
    Fraction(PointsFrom(values, 0, 0, total, x), total as real);
    Fraction(PointsFrom(values, 0, 0, total, y), total as real);
    FractionGrows(PointsFrom(values, 0, 0, total, x), PointsFrom(values, 0, 0, total, y), total as real);
  }

  lemma {:induction false} SearchReaches(values: seq<Centroid>, i: nat, total: nat, x: nat)
    requires Ascending(values) && i < |values| && total > 0 && values[i].mean <= x
    ensures CdfFrom(values, 0, 0, total, x) == CdfFrom(values, i, Weight(values[..i]), total, x)
  {
    if i == 0 {
      assert values[..0] == [];
    } else {
      SearchReaches(values, i - 1, total, x);
      WeightOfPrefix(values, i - 1);
    }
  }

  /** Half of the left centroid, rounded down, behind what is before it; then straight over the two
      halves in between. */
  function Straight(left: Centroid, right: Centroid, before: nat, x: nat): real
    requires left.mean <= x < right.mean
  {
    var share := (x - left.mean) as real / (right.mean - left.mean) as real;
    (before + left.weight / 2) as real + share * ((left.weight + right.weight) / 2) as real
  }

  lemma InsideIs(left: Centroid, right: Centroid, weightSoFar: nat, x: nat)
    requires left.mean <= x < right.mean
    ensures Inside(left, right, weightSoFar, x) == Straight(left, right, weightSoFar, x)
  {
    Fraction((x - left.mean) as real, (right.mean - left.mean) as real);
    LerpIsLinear((weightSoFar + left.weight / 2) as real, Delta(left, right) as real,
                 (x - left.mean) as real / (right.mean - left.mean) as real);
  }

  /** Between two means the answer is on the straight line, behind all the weight before the left one. */
  lemma InteriorIsLinear(values: seq<Centroid>, i: nat, x: nat)
    requires Ascending(values) && Sound(values) && i + 1 < |values| && values[i].mean <= x < values[i + 1].mean
    ensures Weight(values) > 0
    ensures CdfFrom(values, 0, 0, Weight(values), x)
         == Straight(values[i], values[i + 1], Weight(values[..i]), x) / Weight(values) as real
  {
    StartPlace(values);
    SearchReaches(values, i, Weight(values), x);
    InsideIs(values[i], values[i + 1], Weight(values[..i]), x);
  }

  /** What there is to say about a digest of at most one centroid. */
  lemma FewCentroids(c: Centroid, total: nat, lo: nat, hi: nat, x: nat)
    ensures CdfOf([], total, lo, hi, x) == 1.0
    ensures lo <= hi ==> CdfOf([c], total, lo, hi, x) == if x < lo then 0.0 else if x > hi then 1.0 else 0.5
  {
  }

  // --- The tails ---------------------------------------------------------------------------------

  lemma LerpAtZero(b: real)
    requires b >= 0.0
    ensures Lerp(1.0, b, 0.0) == 1.0
  {
  }

  lemma SmallQuotient(a: nat, d: nat)
    requires a < d
    ensures Quotient(a, d) == 0
  {
    QuotientAtMost(a, d, 0);
  }

  lemma SmallQuotients(a: nat, d: nat, e: nat)
    requires a < d && e > 0
    ensures Quotient(Quotient(a, d), e) == 0
  {
    SmallQuotient(a, d);
    SmallQuotient(0, e);
  }

  /** Integer division flattens the lower tail to one point ... */
  lemma LowTailIsFlat(first: Centroid, lo: nat, total: nat, x: nat)
    requires total > 0 && lo <= x < first.mean <= UINT_MAX
    ensures LowTail(first, lo, total, x) == 1.0 / total as real
  {
    SmallQuotient(x - lo, first.mean - lo);
    LerpAtZero(Wrap(first.weight / 2 - 1) as real);
  }

  /** ... and the upper tail to nothing at all. */
  lemma HighTailIsZero(last: Centroid, hi: nat, total: nat, x: nat)
    requires total > 0 && last.mean < x <= hi <= UINT_MAX
    ensures HighTail(last, hi, total, x) == 0.0
  {
    SmallQuotients(hi - x, hi - last.mean, total);
    LerpAtZero(Wrap(last.weight / 2 - 1) as real);
  }

  /** For any x between the extremes the answer is a probability. */
  lemma CdfIsProbability(values: seq<Centroid>, lo: nat, hi: nat, x: nat)
    requires Shape(values, lo, hi) && lo <= x <= hi
    ensures Weight(values) > 0
    ensures 0.0 <= CdfOf(values, Weight(values), lo, hi, x) <= 1.0
  {
    StartPlace(values);
    if |values| >= 2 {
      var total := Weight(values);
      if x < values[0].mean {
        LowTailIsFlat(values[0], lo, total, x);
        Fraction(1.0, total as real);
      } else if x > values[|values| - 1].mean {
        HighTailIsZero(values[|values| - 1], hi, total, x);
      } else {
        InteriorMonotone(values, x, x);
      }
    }
  }

  /** The digests whose tails do no harm: the lower one is empty, or at least one point lies at or
      below the first mean; the upper one is empty. */
  predicate TailsHarmless(values: seq<Centroid>, lo: nat, hi: nat)
    requires |values| >= 2
  {
    && (lo == values[0].mean || values[0].weight >= 2 || values[1].mean == values[0].mean)
    && hi == values[|values| - 1].mean
  }

  ghost predicate GrowsBetweenExtremes(values: seq<Centroid>, lo: nat, hi: nat)
    requires |values| >= 2 ==> Weight(values) > 0
  {
    forall x, y :: lo <= x <= y <= hi ==>
      CdfOf(values, Weight(values), lo, hi, x) <= CdfOf(values, Weight(values), lo, hi, y)
  }

  lemma AtFirstMean(values: seq<Centroid>, x: nat)
    requires |values| >= 2 && Ascending(values) && Sound(values)
    requires values[0].mean <= x <= values[|values| - 1].mean
    requires values[0].weight >= 2 || values[1].mean == values[0].mean
    ensures PointsFrom(values, 0, 0, Weight(values), x) >= 1.0
  {
    StartPlace(values);
    NextPlace(values, 0, 0, Weight(values));
    PointsBounds(values, 0, 0, Weight(values), x);
    if values[0].weight < 2 {
      PointsBounds(values, 1, values[0].weight, Weight(values), x);
    }
  }

  lemma HarmlessGrows(values: seq<Centroid>, lo: nat, hi: nat, x: nat, y: nat)
    requires |values| >= 2 && Shape(values, lo, hi) && TailsHarmless(values, lo, hi) && lo <= x <= y <= hi
    ensures Weight(values) > 0
    ensures CdfOf(values, Weight(values), lo, hi, x) <= CdfOf(values, Weight(values), lo, hi, y)
  {
    StartPlace(values);
    var total := Weight(values);
    if x < values[0].mean {
      LowTailIsFlat(values[0], lo, total, x);
      if y < values[0].mean {
        LowTailIsFlat(values[0], lo, total, y);
      } else {
        AtFirstMean(values, y);
        CdfIsPoints(values, 0, 0, total, y);
        FractionGrows(1.0, PointsFrom(values, 0, 0, total, y), total as real);
      }
    } else {
      InteriorMonotone(values, x, y);
    }
  }

  lemma {:induction false} SearchEnds(values: seq<Centroid>, i: nat, weightSoFar: nat, total: nat)
    requires i < |values| && Ascending(values) && total > 0
    ensures CdfFrom(values, i, weightSoFar, total, values[|values| - 1].mean) == 1.0 - 0.5 / total as real
    decreases |values| - i
  {
    if i + 1 == |values| {
    } else {
      SearchEnds(values, i + 1, weightSoFar + values[i].weight, total);
    }
  }

  lemma HighTailHarms(values: seq<Centroid>, lo: nat, hi: nat)
    requires |values| >= 2 && Shape(values, lo, hi) && hi != values[|values| - 1].mean
    ensures Weight(values) > 0 && !GrowsBetweenExtremes(values, lo, hi)
  {
    StartPlace(values);
    var total, last := Weight(values), values[|values| - 1];
    HighTailIsZero(last, hi, total, hi);
    CdfIsPoints(values, 0, 0, total, last.mean);
    SearchEnds(values, 0, 0, total);
    Fraction(0.5, total as real);
    assert CdfOf(values, total, lo, hi, last.mean) > CdfOf(values, total, lo, hi, hi);
  }

  lemma NothingBelow(first: Centroid, second: Centroid)
    requires first.weight < 2 && first.mean < second.mean
    ensures Inside(first, second, 0, first.mean) == 0.0
  {
    LerpIsLinear(0.0, Delta(first, second) as real, 0.0);
    Fraction(0.0, (second.mean - first.mean) as real);
  }

  lemma LowTailHarms(values: seq<Centroid>, lo: nat, hi: nat)
    requires |values| >= 2 && Shape(values, lo, hi)
    requires lo != values[0].mean && values[0].weight < 2 && values[1].mean != values[0].mean
    ensures Weight(values) > 0 && !GrowsBetweenExtremes(values, lo, hi)
  {
    StartPlace(values);
    var total, first := Weight(values), values[0];
    assert first in values;
    LowTailIsFlat(first, lo, total, lo);
    NothingBelow(first, values[1]);
    Fraction(1.0, total as real);
    assert CdfOf(values, total, lo, hi, lo) > CdfOf(values, total, lo, hi, first.mean);
  }

  /** Between the extremes the distribution function of a digest with two or more centroids is
      monotone if and only if its tails are harmless. */
  lemma MonotoneIff(values: seq<Centroid>, lo: nat, hi: nat)
    requires |values| >= 2 && Shape(values, lo, hi)
    ensures Weight(values) > 0
    ensures GrowsBetweenExtremes(values, lo, hi) <==> TailsHarmless(values, lo, hi)
  {
    StartPlace(values);
    if TailsHarmless(values, lo, hi) {
      forall x, y | lo <= x <= y <= hi
        ensures CdfOf(values, Weight(values), lo, hi, x) <= CdfOf(values, Weight(values), lo, hi, y)
      {
        HarmlessGrows(values, lo, hi, x, y);
      }
    } else if hi != values[|values| - 1].mean {
      HighTailHarms(values, lo, hi);
    } else {
      LowTailHarms(values, lo, hi);
    }
  }
}
