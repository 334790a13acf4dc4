/** The quantile query: two tails interpolated in floating point, modelled over reals, around an
    interior interpolated in 32-bit unsigned integers. */
module Quantile {
  import opened Arithmetic
  import opened Centroids

  datatype Quantity = OutOfRange | NotANumber | Number(v: real)

  /** Unsigned 32-bit arithmetic. */
  function Wrap(x: int): nat {
    x % 0x1_0000_0000
  }

  function Lerp(a: real, b: real, t: real): real {
    if (a <= 0.0 && b >= 0.0) || (a >= 0.0 && b <= 0.0) then t * b + (1.0 - t) * a
    else if t == 1.0 then b
    else
      var x := a + t * (b - a);
      if (t > 1.0) == (b > a) then (if b < x then x else b)
      else (if x < b then x else b)
  }

  function Index(p: real, total: nat): nat
    requires 0.0 <= p <= 100.0
  {
    (p / 100.0 * total as real).Floor
  }

  function Mix(left: nat, right: nat, lower: nat, delta: nat): nat
    requires lower <= delta
  {
    left * (delta - lower) + right * lower
  }

  /** Between two neighbours that are `delta` apart in index space, `lower` of it past the left one. */
  function Interpolate(left: nat, right: nat, lower: nat, delta: nat): nat
    requires lower < delta
  {
    Quotient(Wrap(Mix(left, right, lower, delta)), delta)
  }

  function Delta(left: Centroid, right: Centroid): nat {
    (left.weight + right.weight) / 2
  }

  /** The search for the bracketing pair, from the i-th centroid on. */
  function PairsFrom(values: seq<Centroid>, i: nat, weightSoFar: nat, index: nat): nat
    requires i < |values| && weightSoFar <= index
    decreases |values| - i
  {
    if i + 1 == |values| then values[i].mean
    else
      var delta := Delta(values[i], values[i + 1]);
      if weightSoFar + delta > index then
        Interpolate(values[i].mean, values[i + 1].mean, index - weightSoFar, delta)
      else PairsFrom(values, i + 1, weightSoFar + delta, index)
  }

  method SearchPairs(values: seq<Centroid>, start: nat, index: nat) returns (quantile: nat)
    requires values != [] && start <= index
    ensures quantile == PairsFrom(values, 0, start, index)
  {
    var weightSoFar: nat := start;
    for i := 0 to |values| - 1
      invariant weightSoFar <= index
      invariant PairsFrom(values, i, weightSoFar, index) == PairsFrom(values, 0, start, index)
    {
      var delta := Delta(values[i], values[i + 1]);
      if weightSoFar + delta > index {
        return Interpolate(values[i].mean, values[i + 1].mean, index - weightSoFar, delta);
      }
      weightSoFar := weightSoFar + delta;
    }
    return values[|values| - 1].mean;
  }

  function MinTail(lo: nat, first: Centroid, index: nat): real
    requires first.weight >= 4
  {
    Lerp(lo as real, first.mean as real, (index - 1) as real / (first.weight / 2 - 1) as real)
  }

  function MaxTail(hi: nat, last: Centroid, rest: nat): Quantity
  {
    var half := last.weight / 2;
    if half == 1 then NotANumber   // 0.0 / 0
    else Number(hi as real - rest as real / (half - 1) as real * Wrap(hi - last.mean) as real)
  }

  /** What the query answers at an index of the total weight. */
  function AtIndex(values: seq<Centroid>, total: nat, lo: nat, hi: nat, index: nat): Quantity
    requires |values| >= 2 && index <= total
  {
    var first, last := values[0], values[|values| - 1];
    if index < 1 then Number(lo as real)
    else if first.weight > 1 && index < first.weight / 2 then Number(MinTail(lo, first, index))
    else if index + 1 > total then Number(hi as real)
    else if last.weight > 1 && total - index <= last.weight / 2 then MaxTail(hi, last, total - index - 1)
    else Number(PairsFrom(values, 0, first.weight / 2, index) as real)
  }

  lemma IndexInRange(p: real, total: nat)
    requires 0.0 <= p <= 100.0
    ensures 0 <= Index(p, total) <= total
  {
    Product(p / 100.0, 1.0, total as real);
  }

  function QuantileOf(values: seq<Centroid>, total: nat, lo: nat, hi: nat, p: real): Quantity {
    if p < 0.0 || p > 100.0 then OutOfRange
    else if values == [] then Number(0.0)
    else if |values| == 1 then Number(values[0].mean as real)
    else
      IndexInRange(p, total);
      AtIndex(values, total, lo, hi, Index(p, total))
  }

  /** The index has at most the share p of the weight, and the next one has more. */
  ghost predicate HasShare(p: real, total: nat, index: nat) {
    index as real <= p / 100.0 * total as real < (index + 1) as real
  }

  /** A percentage is answered at the one index whose share of the weight it reaches, and the next one's
      it does not. */
  lemma QuantileIsAt(values: seq<Centroid>, total: nat, lo: nat, hi: nat, p: real, index: nat)
    requires |values| >= 2 && 0.0 <= p <= 100.0
    requires HasShare(p, total, index)
    ensures index <= total
    ensures QuantileOf(values, total, lo, hi, p) == AtIndex(values, total, lo, hi, index)
  {
    IndexInRange(p, total);
  }

  /** Every percentage has such an index. */
  lemma IndexOf(p: real, total: nat) returns (index: nat)
    requires 0.0 <= p <= 100.0
    ensures HasShare(p, total, index)
  {
    IndexInRange(p, total);
    index := Index(p, total);
  }

  // --- Exactness of the integer interpolation ----------------------------------------------------

  /** The interpolation an unbounded integer type would give. */
  function Between(left: nat, right: nat, lower: nat, delta: nat): nat
    requires lower < delta
  {
    Quotient(Mix(left, right, lower, delta), delta)
  }

  /** One lost carry always lowers the quotient. */
  lemma LostCarry(x: nat, d: nat)
    requires x > UINT_MAX && 0 < d <= UINT_MAX
    ensures Quotient(Wrap(x), d) < Quotient(x, d)
  {
    assert Wrap(x) + d <= x;
    Distribute(Quotient(Wrap(x), d), 1, d);
    QuotientAtLeast(x, d, Quotient(Wrap(x), d) + 1);
  }

  lemma MixGrows(left: nat, right: nat, lower: nat, more: nat, delta: nat)
    requires left <= right && lower <= more <= delta
    ensures Mix(left, right, lower, delta) <= Mix(left, right, more, delta)
  {
    Times(left, right, more - lower);
    Distribute(delta - more, more - lower, left);
    Distribute(lower, more - lower, right);
  }

  /** The 32-bit interpolation of a pair is exact at every index of the pair if and only if the
      largest numerator it forms fits. */
  lemma InterpolationExactIff(left: nat, right: nat, delta: nat)
    requires left <= right && 0 < delta <= UINT_MAX
    ensures (forall lower :: 0 <= lower < delta ==>
               Interpolate(left, right, lower, delta) == Between(left, right, lower, delta))
            <==> Mix(left, right, delta - 1, delta) <= UINT_MAX
  {
    if Mix(left, right, delta - 1, delta) <= UINT_MAX {
      forall lower | 0 <= lower < delta
        ensures Interpolate(left, right, lower, delta) == Between(left, right, lower, delta)
      {
        MixGrows(left, right, lower, delta - 1, delta);
      }
    } else {
      LostCarry(Mix(left, right, delta - 1, delta), delta);
      assert Interpolate(left, right, delta - 1, delta) != Between(left, right, delta - 1, delta);
    }
  }

  // --- Growth of the integer interpolation -------------------------------------------------------

  /** How many carries a numerator loses. */
  function Carries(x: nat): nat {
    x / 0x1_0000_0000
  }

  lemma NextMix(left: nat, right: nat, lower: nat, delta: nat)
    requires left <= right && lower < delta
    ensures Mix(left, right, lower + 1, delta) == Mix(left, right, lower, delta) + (right - left)
  {
    NextProduct(lower, right);
    NextProduct(delta - lower - 1, left);
  }

  /** As long as no further carry is lost, the answer grows ... */
  lemma SameCarriesGrow(x: nat, y: nat, delta: nat)
    requires x <= y && Carries(x) == Carries(y) && delta > 0
    ensures Quotient(Wrap(x), delta) <= Quotient(Wrap(y), delta)
  {
    QuotientMonotone(Wrap(x), Wrap(y), delta);
  }

  /** ... and with the next one it falls, unless the numerator advanced by almost 2^32. */
  lemma LostCarryFalls(x: nat, y: nat, delta: nat)
    requires x <= y <= x + 0x1_0000_0000 - delta && Carries(x) < Carries(y) && delta > 0
    ensures Quotient(Wrap(y), delta) < Quotient(Wrap(x), delta)
  {
    assert Wrap(y) + delta <= Wrap(x);
    NextProduct(Quotient(Wrap(y), delta), delta);
    QuotientAtLeast(Wrap(x), delta, Quotient(Wrap(y), delta) + 1);
  }

  lemma {:induction false} CarryIsLost(left: nat, right: nat, upper: nat, delta: nat) returns (lower: nat)
    requires left <= right && upper <= delta
    requires Carries(Mix(left, right, 0, delta)) < Carries(Mix(left, right, upper, delta))
    ensures lower < upper
    ensures Carries(Mix(left, right, lower, delta)) < Carries(Mix(left, right, lower + 1, delta))
  {
    if upper == 0 {
      assert false;
    } else if Carries(Mix(left, right, upper - 1, delta)) < Carries(Mix(left, right, upper, delta)) {
      lower := upper - 1;
    } else {
      MixGrows(left, right, upper - 1, upper, delta);
      lower := CarryIsLost(left, right, upper - 1, delta);
    }
  }

  /** The answers within a pair grow if and only if its first and its last numerator lose the same
      number of carries, for means that are not almost 2^32 apart. */
  lemma PairGrowsIff(left: nat, right: nat, delta: nat)
    requires left <= right && delta > 0 && right - left + delta <= 0x1_0000_0000
    ensures (forall lower :: 0 <= lower < delta - 1 ==>
               Interpolate(left, right, lower, delta) <= Interpolate(left, right, lower + 1, delta))
            <==> Carries(Mix(left, right, 0, delta)) == Carries(Mix(left, right, delta - 1, delta))
  {
    MixGrows(left, right, 0, delta - 1, delta);
    if Carries(Mix(left, right, 0, delta)) == Carries(Mix(left, right, delta - 1, delta)) {
      forall lower | 0 <= lower < delta - 1
        ensures Interpolate(left, right, lower, delta) <= Interpolate(left, right, lower + 1, delta)
      {
        MixGrows(left, right, 0, lower, delta);
        MixGrows(left, right, lower, lower + 1, delta);
        MixGrows(left, right, lower + 1, delta - 1, delta);
        SameCarriesGrow(Mix(left, right, lower, delta), Mix(left, right, lower + 1, delta), delta);
      }
    } else {
      var lower := CarryIsLost(left, right, delta - 1, delta);
      NextMix(left, right, lower, delta);
      LostCarryFalls(Mix(left, right, lower, delta), Mix(left, right, lower + 1, delta), delta);
      assert Interpolate(left, right, lower, delta) > Interpolate(left, right, lower + 1, delta);
    }
  }

  // --- The interior ------------------------------------------------------------------------------

  ghost predicate NumeratorFits(left: Centroid, right: Centroid) {
    Delta(left, right) >= 1 && Mix(left.mean, right.mean, Delta(left, right) - 1, Delta(left, right)) <= UINT_MAX
  }

  /** No pair forms a numerator that does not fit. */
  ghost predicate Fits(values: seq<Centroid>) {
    forall i, j :: 0 <= i && i + 1 == j < |values| ==> NumeratorFits(values[i], values[j])
  }

  ghost predicate Shape(values: seq<Centroid>, lo: nat, hi: nat) {
    && values != [] && Ascending(values) && Sound(values) && Weight(values) <= UINT_MAX
    && lo <= values[0].mean && values[|values| - 1].mean <= hi <= UINT_MAX
  }

  lemma BetweenBounds(left: nat, right: nat, lower: nat, delta: nat)
    requires left <= right && lower < delta
    ensures left <= Between(left, right, lower, delta) <= right
  {
    MixGrows(left, right, 0, lower, delta);
    MixGrows(left, right, lower, delta, delta);
    QuotientAtLeast(Mix(left, right, lower, delta), delta, left);
    QuotientAtMost(Mix(left, right, lower, delta), delta, right);
  }

  lemma TwoOfMany(values: seq<Centroid>, i: nat)
    requires i + 1 < |values|
    ensures values[i].weight + values[i + 1].weight <= Weight(values)
  {
    WeightOfPrefix(values, i);
    WeightOfPrefix(values, i + 1);
  }

  lemma PairFits(values: seq<Centroid>, i: nat, lower: nat)
    requires Ascending(values) && Sound(values) && Weight(values) <= UINT_MAX && Fits(values)
    requires i + 1 < |values| && lower < Delta(values[i], values[i + 1])
    ensures values[i].mean <= values[i + 1].mean
    ensures var l, r, d := values[i].mean, values[i + 1].mean, Delta(values[i], values[i + 1]);
            Interpolate(l, r, lower, d) == Between(l, r, lower, d)
  {
    assert NumeratorFits(values[i], values[i + 1]);
    TwoOfMany(values, i);
    InterpolationExactIff(values[i].mean, values[i + 1].mean, Delta(values[i], values[i + 1]));
  }

  lemma PairBounds(values: seq<Centroid>, i: nat, lower: nat)
    requires Ascending(values) && Sound(values) && Weight(values) <= UINT_MAX && Fits(values)
    requires i + 1 < |values| && lower < Delta(values[i], values[i + 1])
    ensures var l, r, d := values[i].mean, values[i + 1].mean, Delta(values[i], values[i + 1]);
            l <= Interpolate(l, r, lower, d) <= r
  {
    PairFits(values, i, lower);
    BetweenBounds(values[i].mean, values[i + 1].mean, lower, Delta(values[i], values[i + 1]));
  }

  lemma PairMonotone(values: seq<Centroid>, i: nat, lower: nat, more: nat)
    requires Ascending(values) && Sound(values) && Weight(values) <= UINT_MAX && Fits(values)
    requires i + 1 < |values| && lower <= more < Delta(values[i], values[i + 1])
    ensures var l, r, d := values[i].mean, values[i + 1].mean, Delta(values[i], values[i + 1]);
            Interpolate(l, r, lower, d) <= Interpolate(l, r, more, d)
  {
    var l, r, d := values[i].mean, values[i + 1].mean, Delta(values[i], values[i + 1]);
    PairFits(values, i, lower);
    PairFits(values, i, more);
    MixGrows(l, r, lower, more, d);
    QuotientAtLeast(Mix(l, r, more, d), d, Between(l, r, lower, d));
  }

  lemma {:induction false} PairsBounds(values: seq<Centroid>, i: nat, weightSoFar: nat, index: nat)
    requires Ascending(values) && Sound(values) && Weight(values) <= UINT_MAX && Fits(values)
    requires i < |values| && weightSoFar <= index
    ensures values[i].mean <= PairsFrom(values, i, weightSoFar, index) <= values[|values| - 1].mean
    decreases |values| - i
  {
    if i + 1 == |values| {
    } else {
      var delta := Delta(values[i], values[i + 1]);
      if weightSoFar + delta > index {
        PairBounds(values, i, index - weightSoFar);
      } else {
        PairsBounds(values, i + 1, weightSoFar + delta, index);
      }
    }
  }

  lemma {:induction false} PairsMonotone(values: seq<Centroid>, i: nat, weightSoFar: nat, a: nat, b: nat)
    requires Ascending(values) && Sound(values) && Weight(values) <= UINT_MAX && Fits(values)
    requires i < |values| && weightSoFar <= a <= b
    ensures PairsFrom(values, i, weightSoFar, a) <= PairsFrom(values, i, weightSoFar, b)
    decreases |values| - i
  {
    if i + 1 == |values| {
    } else {
      var delta := Delta(values[i], values[i + 1]);
      if weightSoFar + delta > b {
        PairMonotone(values, i, a - weightSoFar, b - weightSoFar);
      } else if weightSoFar + delta > a {
        PairBounds(values, i, a - weightSoFar);
        PairsBounds(values, i + 1, weightSoFar + delta, b);
      } else {
        PairsMonotone(values, i + 1, weightSoFar + delta, a, b);
      }
    }
  }

  // --- The tails ---------------------------------------------------------------------------------

  lemma LerpIsLinear(base: real, delta: real, t: real)
    requires base >= 0.0 && delta >= 0.0 && 0.0 <= t < 1.0
    ensures Lerp(base, base + delta, t) == base + t * delta
    ensures base <= base + t * delta <= base + delta
  {
    Share(t, delta);
    assert base + t * (base + delta - base) == base + t * delta;
    assert t * (base + delta) + (1.0 - t) * base == base + t * delta;
  }

  lemma LerpBounds(a: real, b: real, t: real)
    requires 0.0 <= a <= b && 0.0 <= t < 1.0
    ensures a <= Lerp(a, b, t) <= b
  {
    LerpIsLinear(a, b - a, t);
    assert a + (b - a) == b;
  }

  lemma LerpMonotone(a: real, b: real, s: real, t: real)
    requires 0.0 <= a <= b && 0.0 <= s <= t < 1.0
    ensures Lerp(a, b, s) <= Lerp(a, b, t)
  {
    LerpIsLinear(a, b - a, s);
    LerpIsLinear(a, b - a, t);
    Product(s, t, b - a);
    assert a + (b - a) == b;
  }

  /** The lower tail runs straight from the minimum at index 1 to the first mean half its weight on. */
  lemma MinTailIs(lo: nat, first: Centroid, index: nat)
    requires first.weight >= 4 && lo <= first.mean && 1 <= index < first.weight / 2
    ensures var part := (index - 1) as real / (first.weight / 2 - 1) as real;
            MinTail(lo, first, index) == lo as real + part * (first.mean as real - lo as real)
  {
    var t := (index - 1) as real / (first.weight / 2 - 1) as real;
    Fraction((index - 1) as real, (first.weight / 2 - 1) as real);
    LerpIsLinear(lo as real, first.mean as real - lo as real, t);
    assert lo as real + (first.mean as real - lo as real) == first.mean as real;
  }

  lemma MinTailBounds(lo: nat, first: Centroid, index: nat)
    requires first.weight >= 4 && lo <= first.mean && 1 <= index < first.weight / 2
    ensures lo as real <= MinTail(lo, first, index) <= first.mean as real
  {
    var t := (index - 1) as real / (first.weight / 2 - 1) as real;
    Fraction((index - 1) as real, (first.weight / 2 - 1) as real);
    LerpBounds(lo as real, first.mean as real, t);
  }

  lemma MinTailMonotone(lo: nat, first: Centroid, a: nat, b: nat)
    requires first.weight >= 4 && lo <= first.mean && 1 <= a <= b < first.weight / 2
    ensures MinTail(lo, first, a) <= MinTail(lo, first, b)
  {
    var d := (first.weight / 2 - 1) as real;
    Fraction((a - 1) as real, d);
    Fraction((b - 1) as real, d);
    FractionGrows((a - 1) as real, (b - 1) as real, d);
    LerpMonotone(lo as real, first.mean as real, (a - 1) as real / d, (b - 1) as real / d);
  }

  lemma MaxTailIs(hi: nat, last: Centroid, rest: nat)
    requires last.weight >= 4 && last.mean <= hi <= UINT_MAX
    ensures var part := rest as real / (last.weight / 2 - 1) as real;
            MaxTail(hi, last, rest) == Number(hi as real - part * (hi as real - last.mean as real))
  {
    assert Wrap(hi - last.mean) == hi - last.mean;
    assert (hi - last.mean) as real == hi as real - last.mean as real;
  }

  lemma WithinEnds(q: Quantity, hi: real, last: real, part: real)
    requires q == Number(hi - part * (hi - last)) && last <= hi && 0.0 <= part <= 1.0
    ensures q.Number? && last <= q.v <= hi
  {
    Share(part, hi - last);
  }

  lemma MaxTailBounds(hi: nat, last: Centroid, rest: nat)
    requires last.weight >= 4 && last.mean <= hi <= UINT_MAX && rest < last.weight / 2
    ensures var q := MaxTail(hi, last, rest); q.Number? && last.mean as real <= q.v <= hi as real
  {
    var d := (last.weight / 2 - 1) as real;
    MaxTailIs(hi, last, rest);
    Fraction(rest as real, d);
    WithinEnds(MaxTail(hi, last, rest), hi as real, last.mean as real, rest as real / d);
  }

  lemma MaxTailMonotone(hi: nat, last: Centroid, a: nat, b: nat)
    requires last.weight >= 4 && last.mean <= hi <= UINT_MAX && b <= a < last.weight / 2
    ensures var x, y := MaxTail(hi, last, a), MaxTail(hi, last, b); x.Number? && y.Number? && x.v <= y.v
  {
    var d := (last.weight / 2 - 1) as real;
    MaxTailIs(hi, last, a);
    MaxTailIs(hi, last, b);
    FractionGrows(b as real, a as real, d);
    Product(b as real / d, a as real / d, hi as real - last.mean as real);
  }

  // --- The whole query ---------------------------------------------------------------------------

  datatype Regime = AtMin | InMinTail | Interior | InMaxTail | AtMax

  /** The regime an index falls into; the regimes follow one another in this order. */
  function RegimeOf(values: seq<Centroid>, total: nat, index: nat): Regime
    requires |values| >= 2
  {
    var first, last := values[0], values[|values| - 1];
    if index == 0 then AtMin
    else if index < first.weight / 2 then InMinTail
    else if index >= total then AtMax
    else if total - index <= last.weight / 2 then InMaxTail
    else Interior
  }

  function Rank(r: Regime): nat {
    match r
    case AtMin => 0
    case InMinTail => 1
    case Interior => 2
    case InMaxTail => 3
    case AtMax => 4
  }

  lemma EndsFit(values: seq<Centroid>)
    requires |values| >= 2 && Sound(values)
    ensures values[0].weight >= 1 && values[|values| - 1].weight >= 1
    ensures values[0].weight + values[|values| - 1].weight <= Weight(values)
  {
    assert values[0] in values && values[|values| - 1] in values;
    WeightOfPrefix(values, |values| - 1);
    WeightOfPrefix(values[..|values| - 1], 0);
    assert values[..|values| - 1][0] == values[0] && values[..|values|] == values;
    assert values[..|values| - 1][..0] == [];
  }

  lemma RegimesInOrder(values: seq<Centroid>, a: nat, b: nat)
    requires |values| >= 2 && Sound(values) && a <= b
    ensures Rank(RegimeOf(values, Weight(values), a)) <= Rank(RegimeOf(values, Weight(values), b))
  {
    EndsFit(values);
  }

  /** The smallest and the largest answer each regime can give: neighbouring regimes meet. */
  function Floor(values: seq<Centroid>, lo: nat, hi: nat, r: Regime): nat
    requires |values| >= 2
  {
    match r
    case AtMin => lo
    case InMinTail => lo
    case Interior => values[0].mean
    case InMaxTail => values[|values| - 1].mean
    case AtMax => hi
  }

  function Ceiling(values: seq<Centroid>, lo: nat, hi: nat, r: Regime): nat
    requires |values| >= 2
  {
    match r
    case AtMin => lo
    case InMinTail => values[0].mean
    case Interior => values[|values| - 1].mean
    case InMaxTail => hi
    case AtMax => hi
  }

  /** The one index where a last centroid of weight 2 or 3 divides zero by zero. */
  predicate Breaks(values: seq<Centroid>, total: nat, index: nat)
    requires |values| >= 2
  {
    2 <= values[|values| - 1].weight <= 3 && index + 1 == total
  }

  lemma AnswerInRegime(values: seq<Centroid>, lo: nat, hi: nat, index: nat)
    requires |values| >= 2 && Shape(values, lo, hi) && Fits(values) && index <= Weight(values)
    requires !Breaks(values, Weight(values), index)
    ensures var q, r := AtIndex(values, Weight(values), lo, hi, index), RegimeOf(values, Weight(values), index);
            q.Number? && Floor(values, lo, hi, r) as real <= q.v <= Ceiling(values, lo, hi, r) as real
  {
    EndsFit(values);
    var total, first, last := Weight(values), values[0], values[|values| - 1];
    match RegimeOf(values, total, index)
    case InMinTail => MinTailBounds(lo, first, index);
    case InMaxTail => MaxTailBounds(hi, last, total - index - 1);
    case Interior => PairsBounds(values, 0, first.weight / 2, index);
    case _ =>
  }

  lemma RegimesMeet(values: seq<Centroid>, lo: nat, hi: nat, r: Regime, s: Regime)
    requires |values| >= 2 && Shape(values, lo, hi) && Rank(r) < Rank(s)
    ensures Ceiling(values, lo, hi, r) <= Floor(values, lo, hi, s)
  {
  }

  lemma SameMinTail(values: seq<Centroid>, lo: nat, hi: nat, a: nat, b: nat)
    requires |values| >= 2 && Shape(values, lo, hi) && Fits(values) && a <= b <= Weight(values)
    requires !Breaks(values, Weight(values), a) && !Breaks(values, Weight(values), b)
    requires RegimeOf(values, Weight(values), a) == RegimeOf(values, Weight(values), b) == InMinTail
    ensures var x, y := AtIndex(values, Weight(values), lo, hi, a), AtIndex(values, Weight(values), lo, hi, b);
            x.Number? && y.Number? && x.v <= y.v
  {
    EndsFit(values);
    MinTailMonotone(lo, values[0], a, b);
  }

  lemma SameMaxTail(values: seq<Centroid>, lo: nat, hi: nat, a: nat, b: nat)
    requires |values| >= 2 && Shape(values, lo, hi) && Fits(values) && a <= b <= Weight(values)
    requires !Breaks(values, Weight(values), a) && !Breaks(values, Weight(values), b)
    requires RegimeOf(values, Weight(values), a) == RegimeOf(values, Weight(values), b) == InMaxTail
    ensures var x, y := AtIndex(values, Weight(values), lo, hi, a), AtIndex(values, Weight(values), lo, hi, b);
            x.Number? && y.Number? && x.v <= y.v
  {
    EndsFit(values);
    MaxTailMonotone(hi, values[|values| - 1], Weight(values) - a - 1, Weight(values) - b - 1);
  }

  lemma SameInterior(values: seq<Centroid>, lo: nat, hi: nat, a: nat, b: nat)
    requires |values| >= 2 && Shape(values, lo, hi) && Fits(values) && a <= b <= Weight(values)
    requires !Breaks(values, Weight(values), a) && !Breaks(values, Weight(values), b)
    requires RegimeOf(values, Weight(values), a) == RegimeOf(values, Weight(values), b) == Interior
    ensures var x, y := AtIndex(values, Weight(values), lo, hi, a), AtIndex(values, Weight(values), lo, hi, b);
            x.Number? && y.Number? && x.v <= y.v
  {
    EndsFit(values);
    PairsMonotone(values, 0, values[0].weight / 2, a, b);
  }

  lemma SameRegimeMonotone(values: seq<Centroid>, lo: nat, hi: nat, a: nat, b: nat)
    requires |values| >= 2 && Shape(values, lo, hi) && Fits(values) && a <= b <= Weight(values)
    requires !Breaks(values, Weight(values), a) && !Breaks(values, Weight(values), b)
    requires RegimeOf(values, Weight(values), a) == RegimeOf(values, Weight(values), b)
    ensures var x, y := AtIndex(values, Weight(values), lo, hi, a), AtIndex(values, Weight(values), lo, hi, b);
            x.Number? && y.Number? && x.v <= y.v
  {
    match RegimeOf(values, Weight(values), a)
    case InMinTail => SameMinTail(values, lo, hi, a, b);
    case InMaxTail => SameMaxTail(values, lo, hi, a, b);
    case Interior => SameInterior(values, lo, hi, a, b);
    case _ => EndsFit(values);
  }

  lemma AnswerMonotone(values: seq<Centroid>, lo: nat, hi: nat, a: nat, b: nat)
    requires |values| >= 2 && Shape(values, lo, hi) && Fits(values) && a <= b <= Weight(values)
    requires !Breaks(values, Weight(values), a) && !Breaks(values, Weight(values), b)
    ensures var x, y := AtIndex(values, Weight(values), lo, hi, a), AtIndex(values, Weight(values), lo, hi, b);
            x.Number? && y.Number? && x.v <= y.v
  {
    AnswerInRegime(values, lo, hi, a);
    AnswerInRegime(values, lo, hi, b);
    RegimesInOrder(values, a, b);
    var r, s := RegimeOf(values, Weight(values), a), RegimeOf(values, Weight(values), b);
    if r != s {
      RegimesMeet(values, lo, hi, r, s);
    } else {
      SameRegimeMonotone(values, lo, hi, a, b);
    }
  }

  /** A query on a digest of two or more centroids breaks exactly at the bad index. */
  lemma NotANumberIff(values: seq<Centroid>, lo: nat, hi: nat, index: nat)
    requires |values| >= 2 && Sound(values) && index <= Weight(values)
    ensures AtIndex(values, Weight(values), lo, hi, index).NotANumber? <==> Breaks(values, Weight(values), index)
  {
    EndsFit(values);
  }

  lemma IndexMonotone(p: real, q: real, total: nat)
    requires 0.0 <= p <= q <= 100.0
    ensures Index(p, total) <= Index(q, total)
  {
    Product(p / 100.0, q / 100.0, total as real);
  }

  /** The last centroid never makes the query divide zero by zero. */
  predicate LastIsSafe(values: seq<Centroid>) {
    |values| >= 2 ==> var w := values[|values| - 1].weight; w == 1 || w >= 4
  }

  /** Quantiles stay between the extremes and grow with the percentage, across all regimes. */
  lemma QuantileMonotone(values: seq<Centroid>, lo: nat, hi: nat, p: real, q: real)
    requires Shape(values, lo, hi) && Fits(values) && LastIsSafe(values) && 0.0 <= p <= q <= 100.0
    ensures var x, y := QuantileOf(values, Weight(values), lo, hi, p), QuantileOf(values, Weight(values), lo, hi, q);
            x.Number? && y.Number? && lo as real <= x.v <= y.v <= hi as real
  {
    if |values| >= 2 {
      var total := Weight(values);
      EndsFit(values);
      IndexInRange(p, total);
      IndexInRange(q, total);
      IndexMonotone(p, q, total);
      AnswerMonotone(values, lo, hi, Index(p, total), Index(q, total));
      AnswerInRegime(values, lo, hi, Index(p, total));
      AnswerInRegime(values, lo, hi, Index(q, total));
    }
  }

  /** Every index is asked for by some percentage. */
  lemma PercentageOf(index: nat, total: nat) returns (p: real)
    requires index <= total && total > 0
    ensures 0.0 <= p <= 100.0 && Index(p, total) == index
  {
    var share := index as real / total as real;
    Fraction(index as real, total as real);
    p := 100.0 * share;
    assert share * total as real == index as real;
  }

  /** Some percentage breaks the query exactly when the last centroid weighs 2 or 3. */
  lemma AlwaysNumberIff(values: seq<Centroid>, lo: nat, hi: nat)
    requires values != [] && Sound(values)
    ensures (forall p :: 0.0 <= p <= 100.0 ==> QuantileOf(values, Weight(values), lo, hi, p).Number?)
            <==> LastIsSafe(values)
  {
    if |values| >= 2 {
      EndsFit(values);
      var total := Weight(values);
      if LastIsSafe(values) {
        forall p | 0.0 <= p <= 100.0
          ensures QuantileOf(values, total, lo, hi, p).Number?
        {
          IndexInRange(p, total);
          NotANumberIff(values, lo, hi, Index(p, total));
        }
      } else {
        var p := PercentageOf(total - 1, total);
        NotANumberIff(values, lo, hi, total - 1);
        assert !QuantileOf(values, total, lo, hi, p).Number?;
      }
    }
  }

  // --- What the interior means -------------------------------------------------------------------

  /** Where the i-th centroid sits in index space. */
  function Knot(values: seq<Centroid>, i: nat): nat
    requires i < |values|
  {
    if i == 0 then values[0].weight / 2 else Knot(values, i - 1) + Delta(values[i - 1], values[i])
  }

  /** The search with an interpolation that cannot lose a carry. */
  function ExactFrom(values: seq<Centroid>, i: nat, weightSoFar: nat, index: nat): nat
    requires i < |values| && weightSoFar <= index
    decreases |values| - i
  {
    if i + 1 == |values| then values[i].mean
    else
      var delta := Delta(values[i], values[i + 1]);
      if weightSoFar + delta > index then
        Between(values[i].mean, values[i + 1].mean, index - weightSoFar, delta)
      else ExactFrom(values, i + 1, weightSoFar + delta, index)
  }

  lemma {:induction false} SearchReaches(values: seq<Centroid>, i: nat, index: nat)
    requires i < |values| && Knot(values, i) <= index
    ensures Knot(values, 0) <= index
    ensures PairsFrom(values, 0, Knot(values, 0), index) == PairsFrom(values, i, Knot(values, i), index)
    ensures ExactFrom(values, 0, Knot(values, 0), index) == ExactFrom(values, i, Knot(values, i), index)
  {
    if i == 0 {
    } else {
      SearchReaches(values, i - 1, index);
    }
  }

  /** The search interpolates between the two centroids whose places enclose the index. */
  lemma InteriorIsInterpolation(values: seq<Centroid>, i: nat, index: nat)
    requires i + 1 < |values| && Knot(values, i) <= index < Knot(values, i + 1)
    ensures Knot(values, 0) <= index
    ensures PairsFrom(values, 0, Knot(values, 0), index)
            == Interpolate(values[i].mean, values[i + 1].mean, index - Knot(values, i),
                Knot(values, i + 1) - Knot(values, i))
  {
    SearchReaches(values, i, index);
  }

  lemma FittingPairIsExact(values: seq<Centroid>, i: nat, weightSoFar: nat, index: nat)
    requires Ascending(values) && Sound(values) && Weight(values) <= UINT_MAX && Fits(values)
    requires i + 1 < |values| && weightSoFar <= index < weightSoFar + Delta(values[i], values[i + 1])
    ensures PairsFrom(values, i, weightSoFar, index) == ExactFrom(values, i, weightSoFar, index)
  {
    PairFits(values, i, index - weightSoFar);
  }

  /** The last centroid that sits at or below the index. */
  lemma {:induction false} Bracket(values: seq<Centroid>, start: nat, index: nat) returns (i: nat)
    requires start < |values| && Knot(values, start) <= index
    ensures i < |values| && Knot(values, i) <= index
    ensures i + 1 < |values| ==> index < Knot(values, i + 1)
    decreases |values| - start
  {
    i := start;
    if start + 1 < |values| && Knot(values, start + 1) <= index {
      i := Bracket(values, start + 1, index);
    }
  }

  lemma FittingIsExact(values: seq<Centroid>, index: nat)
    requires Ascending(values) && Sound(values) && Weight(values) <= UINT_MAX && Fits(values)
    requires values != [] && Knot(values, 0) <= index
    ensures PairsFrom(values, 0, Knot(values, 0), index) == ExactFrom(values, 0, Knot(values, 0), index)
  {
    var i := Bracket(values, 0, index);
    SearchReaches(values, i, index);
    if i + 1 < |values| {
      FittingPairIsExact(values, i, Knot(values, i), index);
    }
  }

  lemma {:induction false} KnotWithin(values: seq<Centroid>, i: nat)
    requires i < |values|
    ensures 2 * Knot(values, i) <= 2 * Weight(values[..i]) + values[i].weight
  {
    if i == 0 {
    } else {
      KnotWithin(values, i - 1);
      WeightOfPrefix(values, i - 1);
    }
  }

  /** A centroid sits in the middle of its weight, behind all the weight before it; every step up to it
      may lose half a point to rounding. */
  lemma {:induction false} KnotIsCentre(values: seq<Centroid>, i: nat)
    requires i < |values|
    ensures 2 * Weight(values[..i]) + values[i].weight - (i + 1) <= 2 * Knot(values, i)
    ensures 2 * Knot(values, i) <= 2 * Weight(values[..i]) + values[i].weight
  {
    if i == 0 {
      assert values[..0] == [];
    } else {
      KnotIsCentre(values, i - 1);
      WeightOfPrefix(values, i - 1);
    }
  }

  /** Between two neighbours whose numerators fit, the answer is the integer part of the weighted mean
      of theirs. */
  lemma InteriorIsLinear(values: seq<Centroid>, i: nat, index: nat)
    requires Ascending(values) && Sound(values) && Weight(values) <= UINT_MAX && Fits(values)
    requires i + 1 < |values| && Knot(values, i) <= index < Knot(values, i + 1)
    ensures Knot(values, 0) <= index
    ensures var left, right := values[i].mean, values[i + 1].mean;
            var lower, upper := index - Knot(values, i), Knot(values, i + 1) - index;
            var answer := PairsFrom(values, 0, Knot(values, 0), index);
            answer * (lower + upper) <= left * upper + right * lower < answer * (lower + upper) + (lower + upper)
  {
    InteriorIsInterpolation(values, i, index);
    PairFits(values, i, index - Knot(values, i));
  }

  lemma {:induction false} KnotsGrow(values: seq<Centroid>, i: nat, j: nat)
    requires i <= j < |values|
    ensures Knot(values, i) <= Knot(values, j)
  {
    if i == j {
    } else {
      KnotsGrow(values, i, j - 1);
    }
  }

  /** Every index from the first knot up to the last one is answered by the search. */
  lemma KnotsAreInterior(values: seq<Centroid>, index: nat)
    requires |values| >= 2 && Knot(values, 0) <= index < Knot(values, |values| - 1) && index > 0
    ensures index < Weight(values) && RegimeOf(values, Weight(values), index).Interior?
  {
    var n := |values| - 1;
    KnotWithin(values, n);
    WeightOfPrefix(values, n);
    assert values[..n + 1] == values;
  }

  lemma OnlyLargeDeltasOverflow(left: Centroid, right: Centroid)
    requires left.weight >= 1 && right.weight >= 1 && left.mean <= UINT_MAX && !NumeratorFits(left, right)
    ensures Delta(left, right) >= 2
  {
  }

  /** A pair whose largest numerator does not fit changes the answer just before its right end. */
  lemma MisfitShows(values: seq<Centroid>, i: nat) returns (index: nat)
    requires Ascending(values) && Sound(values) && Weight(values) <= UINT_MAX
    requires i + 1 < |values| && !NumeratorFits(values[i], values[i + 1])
    ensures Knot(values, 0) <= index < Knot(values, |values| - 1) && index > 0
    ensures PairsFrom(values, 0, Knot(values, 0), index) != ExactFrom(values, 0, Knot(values, 0), index)
  {
    var l, r, delta := values[i].mean, values[i + 1].mean, Delta(values[i], values[i + 1]);
    assert values[i] in values && values[i + 1] in values;
    TwoOfMany(values, i);
    OnlyLargeDeltasOverflow(values[i], values[i + 1]);
    index := Knot(values, i + 1) - 1;
    assert index == Knot(values, i) + (delta - 1);
    LostCarry(Mix(l, r, delta - 1, delta), delta);
    KnotsGrow(values, i + 1, |values| - 1);
    SearchReaches(values, i, index);
  }

  /** What the query would answer with an interpolation that cannot lose a carry. */
  function ExactAtIndex(values: seq<Centroid>, total: nat, lo: nat, hi: nat, index: nat): Quantity
    requires |values| >= 2 && index <= total
  {
    if RegimeOf(values, total, index).Interior? then Number(ExactFrom(values, 0, values[0].weight / 2, index) as real)
    else AtIndex(values, total, lo, hi, index)
  }

  lemma InteriorAnswer(values: seq<Centroid>, total: nat, lo: nat, hi: nat, index: nat)
    requires |values| >= 2 && index <= total && RegimeOf(values, total, index).Interior?
    ensures AtIndex(values, total, lo, hi, index) == Number(PairsFrom(values, 0, Knot(values, 0), index) as real)
    ensures ExactAtIndex(values, total, lo, hi, index) == Number(ExactFrom(values, 0, Knot(values, 0), index) as real)
  {
  }

  /** The 32-bit interpolation leaves every answer of the query as it should be if and only if the
      largest numerator of every neighbouring pair fits. */
  lemma QuantilesExactIff(values: seq<Centroid>, lo: nat, hi: nat)
    requires |values| >= 2 && Shape(values, lo, hi)
    ensures (forall index: nat :: index <= Weight(values) ==>
              AtIndex(values, Weight(values), lo, hi, index) == ExactAtIndex(values, Weight(values), lo, hi, index))
            <==> Fits(values)
  {
    var total := Weight(values);
    if Fits(values) {
      forall index: nat | index <= total
        ensures AtIndex(values, total, lo, hi, index) == ExactAtIndex(values, total, lo, hi, index)
      {
        if RegimeOf(values, total, index).Interior? {
          InteriorAnswer(values, total, lo, hi, index);
          FittingIsExact(values, index);
        }
      }
    } else {
      var i, j :| 0 <= i && i + 1 == j < |values| && !NumeratorFits(values[i], values[j]);
      var index := MisfitShows(values, i);
      KnotsAreInterior(values, index);
      InteriorAnswer(values, total, lo, hi, index);
      assert AtIndex(values, total, lo, hi, index) != ExactAtIndex(values, total, lo, hi, index);
    }
  }
}
