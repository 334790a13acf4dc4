/** When a quantile is a value of the digest, when it is a value of the data, as its documentation
    promises, and when it is made up. */
module OrderStatistics {
  import opened Arithmetic
  import opened Centroids
  import opened DigestPoints
  import opened Quantile

  // --- Single points -----------------------------------------------------------------------------

  ghost predicate AllSingle(values: seq<Centroid>) {
    forall c :: c in values ==> c.weight == 1
  }

  lemma {:induction false} KnotOfSingles(values: seq<Centroid>, i: nat)
    requires AllSingle(values) && i < |values|
    ensures Knot(values, i) == i
  {
    if i == 0 {
      assert values[0] in values;
    } else {
      KnotOfSingles(values, i - 1);
      assert values[i - 1] in values && values[i] in values;
    }
  }

  lemma {:induction false} WeightOfSingles(values: seq<Centroid>)
    requires AllSingle(values)
    ensures Weight(values) == |values|
  {
    if values == [] {
    } else {
      assert values[|values| - 1] in values;
      WeightOfSingles(values[..|values| - 1]);
    }
  }

  lemma LeftEnd(left: nat, right: nat)
    requires left <= UINT_MAX
    ensures Interpolate(left, right, 0, 1) == left
  {
    QuotientIs(left, 1, left);
  }

  lemma SearchSingles(values: seq<Centroid>, index: nat)
    requires AllSingle(values) && Sound(values) && index < |values|
    ensures Knot(values, 0) == 0
    ensures PairsFrom(values, 0, 0, index) == values[index].mean
  {
    KnotOfSingles(values, index);
    KnotOfSingles(values, 0);
    SearchReaches(values, index, index);
    assert values[index] in values;
    if index + 1 < |values| {
      assert values[index + 1] in values;
      LeftEnd(values[index].mean, values[index + 1].mean);
    }
  }

  /** A digest that has not clustered anything answers with the exact order statistic. */
  lemma SinglesAreExact(values: seq<Centroid>, lo: nat, hi: nat, index: nat)
    requires |values| >= 2 && Shape(values, lo, hi) && AllSingle(values) && lo == values[0].mean
    requires index < Weight(values)
    ensures Weight(values) == |values|
    ensures AtIndex(values, Weight(values), lo, hi, index) == Number(values[index].mean as real)
  {
    WeightOfSingles(values);
    assert values[0] in values && values[|values| - 1] in values;
    SearchSingles(values, index);
  }

  // --- Values of the digest ----------------------------------------------------------------------

  /** A mean of the digest, or one of its extremes; the mean of a heavy centroid need not be a point. */
  ghost predicate FromDigest(q: Quantity, values: seq<Centroid>, lo: nat, hi: nat) {
    q.Number? && (q.v == lo as real || q.v == hi as real || exists c :: c in values && q.v == c.mean as real)
  }

  ghost predicate AllFromDigest(values: seq<Centroid>, lo: nat, hi: nat)
    requires |values| >= 2
  {
    forall index: nat :: index <= Weight(values) ==>
      FromDigest(ExactAtIndex(values, Weight(values), lo, hi, index), values, lo, hi)
  }

  /** Two neighbours leave no room between them, in value or in weight. */
  predicate NoRoom(left: Centroid, right: Centroid) {
    right.mean <= left.mean + 1 || Delta(left, right) <= 1
  }

  ghost predicate NoRoomInside(values: seq<Centroid>) {
    forall i, j :: 0 <= i && i + 1 == j < |values| ==> NoRoom(values[i], values[j])
  }

  /** The tails have at most the two indices that are answered with their ends. */
  predicate TailsHaveNoRoom(values: seq<Centroid>, lo: nat, hi: nat)
    requires |values| >= 2
  {
    var first, last := values[0], values[|values| - 1];
    && (lo == first.mean || first.weight < 6)
    && (hi == last.mean || last.weight < 6)
  }

  lemma MinTailStarts(lo: nat, first: Centroid)
    requires first.weight >= 4 && lo <= first.mean
    ensures MinTail(lo, first, 1) == lo as real
  {
    LerpIsLinear(lo as real, first.mean as real - lo as real, 0.0);
    assert lo as real + (first.mean as real - lo as real) == first.mean as real;
  }

  lemma MinTailFromDigest(values: seq<Centroid>, lo: nat, hi: nat, index: nat)
    requires |values| >= 2 && Shape(values, lo, hi) && TailsHaveNoRoom(values, lo, hi)
    requires 1 <= index < values[0].weight / 2
    ensures MinTail(lo, values[0], index) == lo as real
  {
    if lo == values[0].mean {
      MinTailBounds(lo, values[0], index);
    } else {
      MinTailStarts(lo, values[0]);
    }
  }

  lemma MaxTailEnds(hi: nat, last: Centroid, rest: nat)
    requires 4 <= last.weight < 6 && last.mean <= hi <= UINT_MAX && rest < 2
    ensures MaxTail(hi, last, rest) == Number(if rest == 0 then hi as real else last.mean as real)
  {
    MaxTailIs(hi, last, rest);
  }

  lemma MaxTailFromDigest(values: seq<Centroid>, lo: nat, hi: nat, rest: nat)
    requires |values| >= 2 && Shape(values, lo, hi) && TailsHaveNoRoom(values, lo, hi) && LastIsSafe(values)
    requires rest < values[|values| - 1].weight / 2
    ensures FromDigest(MaxTail(hi, values[|values| - 1], rest), values, lo, hi)
  {
    var last := values[|values| - 1];
    assert last in values;
    if hi == last.mean {
      MaxTailBounds(hi, last, rest);
    } else {
      MaxTailEnds(hi, last, rest);
    }
  }

  lemma BetweenAtLeft(left: nat, right: nat)
    ensures Between(left, right, 0, 1) == left
  {
    QuotientIs(left, 1, left);
  }

  lemma PairFromDigest(left: Centroid, right: Centroid, lower: nat)
    requires left.mean <= right.mean && NoRoom(left, right) && lower < Delta(left, right)
    ensures var x := Between(left.mean, right.mean, lower, Delta(left, right)); x == left.mean || x == right.mean
  {
    if Delta(left, right) <= 1 {
      BetweenAtLeft(left.mean, right.mean);
    } else {
      BetweenBounds(left.mean, right.mean, lower, Delta(left, right));
    }
  }

  lemma InteriorFromDigest(values: seq<Centroid>, lo: nat, hi: nat, index: nat)
    requires |values| >= 2 && Shape(values, lo, hi) && NoRoomInside(values) && Knot(values, 0) <= index
    ensures FromDigest(Number(ExactFrom(values, 0, Knot(values, 0), index) as real), values, lo, hi)
  {
    var i := Bracket(values, 0, index);
    SearchReaches(values, i, index);
    assert values[i] in values;
    if i + 1 < |values| {
      assert NoRoom(values[i], values[i + 1]) && values[i + 1] in values;
      PairFromDigest(values[i], values[i + 1], index - Knot(values, i));
    }
  }

  lemma NoRoomIsFromDigest(values: seq<Centroid>, lo: nat, hi: nat, index: nat)
    requires |values| >= 2 && Shape(values, lo, hi) && LastIsSafe(values)
    requires TailsHaveNoRoom(values, lo, hi) && NoRoomInside(values) && index <= Weight(values)
    ensures FromDigest(ExactAtIndex(values, Weight(values), lo, hi, index), values, lo, hi)
  {
    EndsFit(values);
    match RegimeOf(values, Weight(values), index)
    case InMinTail => MinTailFromDigest(values, lo, hi, index);
    case InMaxTail => MaxTailFromDigest(values, lo, hi, Weight(values) - index - 1);
    case Interior => InteriorFromDigest(values, lo, hi, index);
    case _ =>
  }

  // --- Values made up ----------------------------------------------------------------------------

  /** Nothing in the digest lies strictly between the minimum and the first mean, between neighbouring means, or
      between the last mean and the maximum. */
  lemma NothingBetween(values: seq<Centroid>, lo: nat, hi: nat, i: nat, x: real)
    requires |values| >= 2 && Shape(values, lo, hi)
    requires || lo as real < x < values[0].mean as real
             || values[|values| - 1].mean as real < x < hi as real
             || (i + 1 < |values| && values[i].mean as real < x < values[i + 1].mean as real)
    ensures !FromDigest(Number(x), values, lo, hi)
  {
    forall c | c in values
      ensures x != c.mean as real
    {
      var j :| 0 <= j < |values| && values[j] == c;
    }
  }

  lemma MinTailInvents(values: seq<Centroid>, lo: nat, hi: nat)
    requires |values| >= 2 && Shape(values, lo, hi) && lo != values[0].mean && values[0].weight >= 6
    ensures lo as real < MinTail(lo, values[0], 2) < values[0].mean as real
  {
    var first := values[0];
    var t, d := 1.0 / (first.weight / 2 - 1) as real, first.mean as real - lo as real;
    Fraction(1.0, (first.weight / 2 - 1) as real);
    LerpIsLinear(lo as real, d, t);
    assert lo as real + d == first.mean as real;
    ProperShare(t, d);
  }

  lemma Inside(hi: real, last: real, x: real)
    requires 0.0 < x < hi - last
    ensures last < hi - x < hi
  {
  }

  lemma MaxTailInvents(hi: nat, last: Centroid)
    requires last.mean < hi <= UINT_MAX && last.weight >= 6
    ensures var q := MaxTail(hi, last, 1); q.Number? && last.mean as real < q.v < hi as real
  {
    var half := last.weight / 2;
    MaxTailIs(hi, last, 1);
    Fraction(1.0, (half - 1) as real);
    var part, gap := 1.0 / (half - 1) as real, hi as real - last.mean as real;
    ProperShare(part, gap);
    Inside(hi as real, last.mean as real, part * gap);
  }

  lemma RoomForOne(gap: nat, delta: nat)
    requires gap >= 2 && delta >= 2
    ensures delta <= gap * (delta - 1)
  {
    Times(2, gap, delta - 1);
  }

  lemma PairInvents(left: nat, right: nat, delta: nat)
    requires left + 2 <= right && delta >= 2
    ensures left < Between(left, right, delta - 1, delta) < right
  {
    var gap, x := right - left, Mix(left, right, delta - 1, delta);
    RoomForOne(gap, delta);
    Distribute(left, gap, delta - 1);
    NextProduct(left, delta);
    NextProduct(left, delta - 1);
    QuotientAtLeast(x, delta, left + 1);
    NextProduct(right - 1, delta);
    NextProduct(right, delta - 1);
    QuotientAtMost(x, delta, right - 1);
  }

  lemma NothingBetweenPair(values: seq<Centroid>, lo: nat, hi: nat, i: nat)
    requires |values| >= 2 && Shape(values, lo, hi) && i + 1 < |values| && !NoRoom(values[i], values[i + 1])
    ensures var l, r, d := values[i].mean, values[i + 1].mean, Delta(values[i], values[i + 1]);
            !FromDigest(Number(Between(l, r, d - 1, d) as real), values, lo, hi)
  {
    var l, r, d := values[i].mean, values[i + 1].mean, Delta(values[i], values[i + 1]);
    PairInvents(l, r, d);
    NothingBetween(values, lo, hi, i, Between(l, r, d - 1, d) as real);
  }

  lemma InteriorInvents(values: seq<Centroid>, lo: nat, hi: nat, i: nat) returns (index: nat)
    requires |values| >= 2 && Shape(values, lo, hi) && i + 1 < |values| && !NoRoom(values[i], values[i + 1])
    ensures index <= Weight(values)
    ensures !FromDigest(ExactAtIndex(values, Weight(values), lo, hi, index), values, lo, hi)
  {
    var left, right := values[i], values[i + 1];
    index := Knot(values, i + 1) - 1;
    assert index == Knot(values, i) + (Delta(left, right) - 1);
    SearchReaches(values, i, index);
    KnotsGrow(values, i + 1, |values| - 1);
    KnotsAreInterior(values, index);
    InteriorAnswer(values, Weight(values), lo, hi, index);
    NothingBetweenPair(values, lo, hi, i);
  }

  lemma TailInvents(values: seq<Centroid>, lo: nat, hi: nat) returns (index: nat)
    requires |values| >= 2 && Shape(values, lo, hi) && !(LastIsSafe(values) && TailsHaveNoRoom(values, lo, hi))
    ensures index <= Weight(values)
    ensures !FromDigest(ExactAtIndex(values, Weight(values), lo, hi, index), values, lo, hi)
  {
    EndsFit(values);
    if !LastIsSafe(values) {
      index := Weight(values) - 1;
    } else if lo != values[0].mean && values[0].weight >= 6 {
      index := 2;
      MinTailInvents(values, lo, hi);
      NothingBetween(values, lo, hi, 0, MinTail(lo, values[0], 2));
    } else {
      index := Weight(values) - 2;
      MaxTailInvents(hi, values[|values| - 1]);
      NothingBetween(values, lo, hi, 0, MaxTail(hi, values[|values| - 1], 1).v);
    }
  }

  /** Without wrap-around, every answer of a query is a mean of the digest or one of its extremes if
      and only if the last centroid does not break the query, the tails hold no index between their
      ends, and every two neighbours are next to each other in value or in weight. */
  lemma AllFromDigestIff(values: seq<Centroid>, lo: nat, hi: nat)
    requires |values| >= 2 && Shape(values, lo, hi)
    ensures AllFromDigest(values, lo, hi)
            <==> LastIsSafe(values) && TailsHaveNoRoom(values, lo, hi) && NoRoomInside(values)
  {
    if !(LastIsSafe(values) && TailsHaveNoRoom(values, lo, hi)) {
      var index := TailInvents(values, lo, hi);
    } else if !NoRoomInside(values) {
      var i, j :| 0 <= i && i + 1 == j < |values| && !NoRoom(values[i], values[j]);
      var index := InteriorInvents(values, lo, hi, i);
    } else {
      forall index: nat | index <= Weight(values)
        ensures FromDigest(ExactAtIndex(values, Weight(values), lo, hi, index), values, lo, hi)
      {
        NoRoomIsFromDigest(values, lo, hi, index);
      }
    }
  }

  /** The same for the query itself, at every percentage, on a digest whose numerators fit. */
  lemma QuantilesFromDigestIff(values: seq<Centroid>, lo: nat, hi: nat)
    requires |values| >= 2 && Shape(values, lo, hi) && Fits(values)
    ensures (forall p :: 0.0 <= p <= 100.0 ==> FromDigest(QuantileOf(values, Weight(values), lo, hi, p), values, lo,
              hi))
            <==> LastIsSafe(values) && TailsHaveNoRoom(values, lo, hi) && NoRoomInside(values)
  {
    var total := Weight(values);
    EndsFit(values);
    AllFromDigestIff(values, lo, hi);
    QuantilesExactIff(values, lo, hi);
    if AllFromDigest(values, lo, hi) {
      forall p | 0.0 <= p <= 100.0
        ensures FromDigest(QuantileOf(values, total, lo, hi, p), values, lo, hi)
      {
        IndexInRange(p, total);
        assert AtIndex(values, total, lo, hi, Index(p, total)) == ExactAtIndex(values, total, lo, hi, Index(p, total));
      }
    } else {
      var index: nat :| index <= total && !FromDigest(ExactAtIndex(values, total, lo, hi, index), values, lo, hi);
      var p := PercentageOf(index, total);
      assert !FromDigest(QuantileOf(values, total, lo, hi, p), values, lo, hi);
    }
  }

  // --- Values of the data ------------------------------------------------------------------------

  ghost predicate IsPoint(q: Quantity, points: multiset<nat>) {
    q.Number? && exists x: nat :: x in points && q.v == x as real
  }

  lemma {:induction false} KnotsRise(values: seq<Centroid>, i: nat, j: nat)
    requires Sound(values) && i < j < |values|
    ensures Knot(values, i) < Knot(values, j)
    decreases j
  {
    assert values[j - 1] in values && values[j] in values;
    if i == j - 1 {
    } else {
      KnotsRise(values, i, j - 1);
    }
  }

  lemma BetweenStarts(left: nat, right: nat, delta: nat)
    requires delta >= 1
    ensures Between(left, right, 0, delta) == left
  {
    QuotientIs(left * delta, delta, left);
  }

  lemma SearchStarts(values: seq<Centroid>, i: nat)
    requires Ascending(values) && Sound(values) && Weight(values) <= UINT_MAX && Fits(values) && i + 1 < |values|
    ensures PairsFrom(values, i, Knot(values, i), Knot(values, i)) == values[i].mean
  {
    assert values[i] in values && values[i + 1] in values;
    PairFits(values, i, 0);
    BetweenStarts(values[i].mean, values[i + 1].mean, Delta(values[i], values[i + 1]));
  }

  lemma InnerKnot(values: seq<Centroid>, i: nat)
    requires Sound(values) && i + 1 < |values| && Knot(values, i) > 0
    ensures Knot(values, 0) <= Knot(values, i) < Weight(values)
    ensures RegimeOf(values, Weight(values), Knot(values, i)).Interior?
  {
    KnotsGrow(values, 0, i);
    KnotsRise(values, i, |values| - 1);
    KnotsAreInterior(values, Knot(values, i));
  }

  lemma InnerMeanIsAnswered(values: seq<Centroid>, lo: nat, hi: nat, i: nat)
    requires |values| >= 2 && Shape(values, lo, hi) && Fits(values) && i + 1 < |values| && Knot(values, i) > 0
    ensures Knot(values, i) <= Weight(values)
    ensures AtIndex(values, Weight(values), lo, hi, Knot(values, i)) == Number(values[i].mean as real)
  {
    InnerKnot(values, i);
    InteriorAnswer(values, Weight(values), lo, hi, Knot(values, i));
    SearchReaches(values, i, Knot(values, i));
    SearchStarts(values, i);
  }

  lemma MaxTailStops(hi: nat, last: Centroid)
    requires last.weight >= 4 && last.mean <= hi <= UINT_MAX
    ensures MaxTail(hi, last, last.weight / 2 - 1) == Number(last.mean as real)
  {
    MaxTailIs(hi, last, last.weight / 2 - 1);
    var d := (last.weight / 2 - 1) as real;
    assert d / d == 1.0;
  }

  lemma TailAnswer(values: seq<Centroid>, lo: nat, hi: nat, rest: nat)
    requires |values| >= 2 && Shape(values, lo, hi) && rest < values[|values| - 1].weight / 2
    ensures rest + 1 <= Weight(values)
    ensures AtIndex(values, Weight(values), lo, hi, Weight(values) - 1 - rest)
              == MaxTail(hi, values[|values| - 1], rest)
  {
    EndsFit(values);
  }

  lemma LastMeanIsAnswered(values: seq<Centroid>, lo: nat, hi: nat)
    requires |values| >= 2 && Shape(values, lo, hi) && values[|values| - 1].weight >= 4
    ensures var last := values[|values| - 1];
            && last.weight / 2 <= Weight(values)
            && AtIndex(values, Weight(values), lo, hi, Weight(values) - last.weight / 2) == Number(last.mean as real)
  {
    var last := values[|values| - 1];
    TailAnswer(values, lo, hi, last.weight / 2 - 1);
    MaxTailStops(hi, last);
  }

  /** Every mean of a heavy centroid is the answer at some index. */
  lemma HeavyMeanIsAnswered(values: seq<Centroid>, lo: nat, hi: nat, c: Centroid) returns (index: nat)
    requires |values| >= 2 && Shape(values, lo, hi) && Fits(values) && LastIsSafe(values)
    requires c in values && c.weight > 1
    ensures index <= Weight(values) && AtIndex(values, Weight(values), lo, hi, index) == Number(c.mean as real)
  {
    var i :| 0 <= i < |values| && values[i] == c;
    if i + 1 == |values| {
      LastMeanIsAnswered(values, lo, hi);
      index := Weight(values) - c.weight / 2;
    } else {
      if i > 0 {
        KnotsRise(values, 0, i);
      }
      InnerMeanIsAnswered(values, lo, hi, i);
      index := Knot(values, i);
    }
  }

  lemma DigestIsPoint(q: Quantity, values: seq<Centroid>, lo: nat, hi: nat, points: multiset<nat>)
    requires FromDigest(q, values, lo, hi) && lo in points && hi in points && Sound(values) && LightIn(values, points)
    requires forall c :: c in values && c.weight > 1 ==> c.mean in points
    ensures IsPoint(q, points)
  {
    if q.v != lo as real && q.v != hi as real {
      var c :| c in values && q.v == c.mean as real;
      assert c.mean in points;
    }
  }

  lemma QuantileFromDigest(values: seq<Centroid>, lo: nat, hi: nat, p: real)
    requires |values| >= 2 && Shape(values, lo, hi) && Fits(values) && 0.0 <= p <= 100.0
    requires LastIsSafe(values) && TailsHaveNoRoom(values, lo, hi) && NoRoomInside(values)
    ensures FromDigest(QuantileOf(values, Weight(values), lo, hi, p), values, lo, hi)
  {
    QuantilesFromDigestIff(values, lo, hi);
  }

  lemma QuantileIsPoint(values: seq<Centroid>, lo: nat, hi: nat, points: multiset<nat>, p: real)
    requires |values| >= 2 && Shape(values, lo, hi) && Fits(values)
    requires LastIsSafe(values) && TailsHaveNoRoom(values, lo, hi) && NoRoomInside(values)
    requires lo in points && hi in points && LightIn(values, points) && 0.0 <= p <= 100.0
    requires forall c :: c in values && c.weight > 1 ==> c.mean in points
    ensures IsPoint(QuantileOf(values, Weight(values), lo, hi, p), points)
  {
    QuantileFromDigest(values, lo, hi, p);
    DigestIsPoint(QuantileOf(values, Weight(values), lo, hi, p), values, lo, hi, points);
  }

  lemma HeavyMeanIsQuantile(values: seq<Centroid>, lo: nat, hi: nat, c: Centroid) returns (p: real)
    requires |values| >= 2 && Shape(values, lo, hi) && Fits(values) && LastIsSafe(values)
    requires c in values && c.weight > 1
    ensures 0.0 <= p <= 100.0 && QuantileOf(values, Weight(values), lo, hi, p) == Number(c.mean as real)
  {
    var index := HeavyMeanIsAnswered(values, lo, hi, c);
    EndsFit(values);
    p := PercentageOf(index, Weight(values));
  }

  lemma NoPoint(x: nat, points: multiset<nat>)
    requires x !in points
    ensures !IsPoint(Number(x as real), points)
  {
  }

  /** If a digest whose numerators fit makes nothing up, then every answer is one of the points behind
      it if and only if the mean of every heavy centroid is. */
  lemma QuantilesArePointsIff(values: seq<Centroid>, lo: nat, hi: nat, points: multiset<nat>)
    requires |values| >= 2 && Shape(values, lo, hi) && Fits(values)
    requires LastIsSafe(values) && TailsHaveNoRoom(values, lo, hi) && NoRoomInside(values)
    requires lo in points && hi in points && LightIn(values, points)
    ensures (forall p :: 0.0 <= p <= 100.0 ==> IsPoint(QuantileOf(values, Weight(values), lo, hi, p), points))
            <==> forall c :: c in values && c.weight > 1 ==> c.mean in points
  {
    var total := Weight(values);
    if forall c :: c in values && c.weight > 1 ==> c.mean in points {
      forall p | 0.0 <= p <= 100.0
        ensures IsPoint(QuantileOf(values, total, lo, hi, p), points)
      {
        QuantileIsPoint(values, lo, hi, points, p);
      }
    } else {
      var c :| c in values && c.weight > 1 && c.mean !in points;
      var p := HeavyMeanIsQuantile(values, lo, hi, c);
      NoPoint(c.mean, points);
      assert !IsPoint(QuantileOf(values, total, lo, hi, p), points);
    }
  }

  lemma LessThanAll(share: real, total: nat, i: nat)
    requires share < 1.0 && total > 0 && i as real <= share * total as real
    ensures i < total
  {
    StrictProduct(share, 1.0, total as real);
    assert i as real < total as real;
  }

  lemma Below(p: real, total: nat, i: nat)
    requires 0.0 <= p < 100.0 && total > 0 && HasShare(p, total, i)
    ensures i < total
  {
    LessThanAll(p / 100.0, total, i);
  }

  /** A digest of single points answers a percentage with the point at the index that has that share of
      the points below it. */
  lemma QuantilesOfSingles(values: seq<Centroid>, lo: nat, hi: nat, p: real, i: nat)
    requires |values| >= 2 && Shape(values, lo, hi) && AllSingle(values) && lo == values[0].mean
    requires 0.0 <= p < 100.0 && HasShare(p, |values|, i)
    ensures i < |values|
    ensures QuantileOf(values, Weight(values), lo, hi, p) == Number(values[i].mean as real)
  {
    WeightOfSingles(values);
    Below(p, |values|, i);
    QuantileIsAt(values, |values|, lo, hi, p, i);
    SinglesAreExact(values, lo, hi, i);
  }
}
