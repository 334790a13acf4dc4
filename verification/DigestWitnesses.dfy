/** Runs of a digest in which its queries fail: every failure is one that the operations reach. */
module DigestWitnesses {
  import opened Arithmetic
  import opened Sorting
  import opened Centroids
  import opened Clustering
  import opened Merging
  import opened Digests
  import opened DigestPoints
  import opened DigestEnds
  import opened DigestTops
  import opened DigestRuns
  import opened Quantile
  import opened OrderStatistics
  import opened Cdf

  // --- Building runs -----------------------------------------------------------------------------

  lemma Extend(ops: seq<Op>, states: seq<Digest>, tapered: bool, op: Op, st': Digest)
    requires IsRun(ops, states, tapered) && Legal(op) && Step(states[|ops|], op, st', tapered)
    ensures IsRun(ops + [op], states + [st'], tapered)
    ensures OverEnded(ops) && OfPoints(op) && AbsorbsEnded(op) ==> OverEnded(ops + [op])
  {
    var ops', states' := ops + [op], states + [st'];
    forall i | 0 <= i < |ops'|
      ensures StepAt(ops', states', tapered, i)
    {
      if i < |ops| {
        assert StepAt(ops, states, tapered, i);
      }
    }
  }

  lemma InsertOne(ops: seq<Op>, states: seq<Digest>, tapered: bool, c: Centroid)
    returns (ops': seq<Op>, states': seq<Digest>)
    requires IsRun(ops, states, tapered) && Sound([c])
    ensures IsRun(ops', states', tapered)
    ensures var st := states[|ops|]; states'[|ops'|] == st.(buffered := st.buffered + [c])
    ensures OverEnded(ops) && c.weight == 1 ==> OverEnded(ops')
    ensures PointsSinceReset(ops') == PointsSinceReset(ops) + multiset{c.mean}
  {
    var st := states[|ops|];
    var st' := st.(buffered := st.buffered + [c]);
    var limit: nat -> real := _ => 0.0;
    var total := Weight(st.buffered) + c.weight;
    assert InsertsTo(st, c, false, limit, st') && Permits(tapered, limit, total);
    Extend(ops, states, tapered, Insert(c), st');
    ops', states' := ops + [Insert(c)], states + [st'];
    assert ops'[..|ops|] == ops;
  }

  lemma Reassociate(a: multiset<nat>, b: multiset<nat>, c: multiset<nat>)
    ensures a + b + c == a + (b + c)
  {
  }

  lemma AppendLast(a: seq<Centroid>, cs: seq<Centroid>)
    requires cs != []
    ensures a + cs == a + cs[..|cs| - 1] + [cs[|cs| - 1]]
  {
  }

  lemma {:induction false} InsertAll(ops: seq<Op>, states: seq<Digest>, tapered: bool, cs: seq<Centroid>)
    returns (ops': seq<Op>, states': seq<Digest>)
    requires IsRun(ops, states, tapered) && Sound(cs)
    ensures IsRun(ops', states', tapered)
    ensures var st := states[|ops|]; states'[|ops'|] == st.(buffered := st.buffered + cs)
    ensures OverEnded(ops) && Single(cs) ==> OverEnded(ops')
    ensures PointsSinceReset(ops') == PointsSinceReset(ops) + PointsOf(cs)
    decreases |cs|
  {
    if cs == [] {
      ops', states' := ops, states;
      assert states[|ops|].buffered + [] == states[|ops|].buffered;
    } else {
      var front, c := cs[..|cs| - 1], cs[|cs| - 1];
      assert c in cs;
      ops', states' := InsertAll(ops, states, tapered, front);
      ops', states' := InsertOne(ops', states', tapered, c);
      Reassociate(PointsSinceReset(ops), PointsOf(front), multiset{c.mean});
      AppendLast(states[|ops|].buffered, cs);
    }
  }

  /** The state after a merge whose output is `active`. */
  function After(st: Digest, low: Centroid, high: Centroid, active: seq<Centroid>): Digest {
    Digest(active, active, LowEnd(st.lo, low), HighEnd(st.hi, high), !st.forward)
  }

  lemma Merge(ops: seq<Op>, states: seq<Digest>, tapered: bool, limit: nat -> real,
              sorted: seq<Centroid>, cuts: seq<nat>, out: seq<Centroid>, st': Digest)
    returns (ops': seq<Op>, states': seq<Digest>)
    requires IsRun(ops, states, tapered) && states[|ops|].buffered != []
    requires MergesBy(states[|ops|], st', limit, sorted, cuts, out)
    requires Permits(tapered, limit, Weight(states[|ops|].buffered))
    ensures IsRun(ops', states', tapered) && Merged(ops') && states'[|ops'|] == st'
    ensures OverEnded(ops) ==> OverEnded(ops')
    ensures PointsSinceReset(ops') == PointsSinceReset(ops)
  {
    assert MergesTo(states[|ops|], st', limit);
    Extend(ops, states, tapered, Compress, st');
    ops', states' := ops + [Compress], states + [st'];
    assert ops'[..|ops|] == ops;
  }

  lemma StandsAlone(c: Centroid, final: bool)
    requires c.weight >= 1
    ensures StandsFor(c, [c], final)
  {
    SumsOfOne(c);
    NextProduct(c.mean, c.weight);
  }

  function Zero(): nat -> real {
    _ => 0.0
  }

  function Steps(n: nat): seq<nat> {
    seq(n + 1, i => i)
  }

  /** A limit of zero clusters nothing. */
  lemma NothingClustered(s: seq<Centroid>)
    requires Sound(s) && s != []
    ensures IsClustering(s, Steps(|s|), s, Zero())
  {
    var cuts := Steps(|s|);
    forall i | 0 <= i < |s|
      ensures StandsFor(s[i], s[cuts[i]..cuts[i + 1]], i == |s| - 1)
    {
      assert s[i] in s && s[i..i + 1] == [s[i]];
      StandsAlone(s[i], i == |s| - 1);
    }
    forall i | 0 <= i < |s| - 1
      ensures RunIsFull(s, cuts[i], cuts[i + 1], Zero())
    {
      BeforeGrows(s, 0, i + 2);
    }
  }

  ghost predicate Reorders(st: Digest, sorted: seq<Centroid>, active: seq<Centroid>) {
    && Sound(st.buffered) && multiset(sorted) == multiset(st.buffered) == multiset(active) && Ascending(active)
    && if st.forward then sorted == active else Descending(sorted)
  }

  /** A merge that reorders the buffer at most. */
  lemma MergeNothing(ops: seq<Op>, states: seq<Digest>, tapered: bool, sorted: seq<Centroid>, active: seq<Centroid>)
    returns (ops': seq<Op>, states': seq<Digest>)
    requires IsRun(ops, states, tapered) && states[|ops|].buffered != []
    requires Reorders(states[|ops|], sorted, active)
    ensures IsRun(ops', states', tapered) && Merged(ops')
    ensures sorted != []
    ensures var st := states[|ops|];
            states'[|ops'|] == After(st, if st.forward then sorted[0] else sorted[|sorted| - 1],
                                         if st.forward then sorted[|sorted| - 1] else sorted[0], active)
    ensures OverEnded(ops) ==> OverEnded(ops')
  {
    var st := states[|ops|];
    Rearranged(sorted, st.buffered);
    NothingClustered(sorted);
    var st' := After(st, if st.forward then sorted[0] else sorted[|sorted| - 1],
                         if st.forward then sorted[|sorted| - 1] else sorted[0], active);
    assert MergesBy(st, st', Zero(), sorted, Steps(|sorted|), sorted);
    ops', states' := Merge(ops, states, tapered, Zero(), sorted, Steps(|sorted|), sorted, st');
  }

  // --- Six points in four centroids --------------------------------------------------------------

  function SixLimit(): nat -> real {
    (w: nat) => if w == 0 then 1.0 else if w == 1 then 3.0 else if w == 3 then 5.0 else 0.0
  }

  function P(mean: nat): Centroid {
    Centroid(mean, 1)
  }

  function Six(a: nat, b: nat, c: nat, d: nat): seq<Centroid> {
    [P(a), P(b), P(b), P(c), P(c), P(d)]
  }

  function Four(a: nat, b: nat, c: nat, d: nat): seq<Centroid> {
    [P(a), Centroid(b, 2), Centroid(c, 2), P(d)]
  }

  lemma TwoAlike(x: nat)
    ensures Weight([P(x), P(x)]) == 2 && Moment([P(x), P(x)]) == 2 * x
  {
    SumsOfConcat([P(x)], [P(x)]);
    SumsOfOne(P(x));
    assert [P(x), P(x)] == [P(x)] + [P(x)];
  }

  lemma SixRuns(a: nat, b: nat, c: nat, d: nat)
    ensures StandsFor(P(a), Six(a, b, c, d)[0..1], false) && StandsFor(Centroid(b, 2), Six(a, b, c, d)[1..3], false)
    ensures StandsFor(Centroid(c, 2), Six(a, b, c, d)[3..5], false) && StandsFor(P(d), Six(a, b, c, d)[5..6], true)
  {
    var s := Six(a, b, c, d);
    assert s[0..1] == [P(a)] && s[1..3] == [P(b), P(b)] && s[3..5] == [P(c), P(c)] && s[5..6] == [P(d)];
    StandsAlone(P(a), false);
    TwoAlike(b);
    TwoAlike(c);
    StandsAlone(P(d), true);
  }

  lemma {:induction false} BeforeSingles(s: seq<Centroid>, k: nat)
    requires Single(s) && k <= |s|
    ensures Before(s, k) == k
  {
    if k == 0 {
    } else {
      BeforeSingles(s, k - 1);
      WeightOfPrefix(s, k - 1);
      assert s[k - 1] in s;
    }
  }

  lemma SixClustered(a: nat, b: nat, c: nat, d: nat)
    ensures IsClustering(Six(a, b, c, d), [0, 1, 3, 5, 6], Four(a, b, c, d), SixLimit())
  {
    var s := Six(a, b, c, d);
    SixRuns(a, b, c, d);
    forall k: nat | k <= 6
      ensures Before(s, k) == k
    {
      BeforeSingles(s, k);
    }
  }

  lemma EmptyRun(tapered: bool)
    ensures IsRun([], [Cleared(true)], tapered) && OverEnded([])
  {
  }

  lemma FirstMerge(s: seq<Centroid>, cuts: seq<nat>, out: seq<Centroid>, limit: nat -> real)
    requires s != [] && Ascending(s) && Ascending(out) && IsClustering(s, cuts, out, limit)
    ensures var st := Digest([], s, UINT_MAX, 0, true);
            MergesBy(st, After(st, s[0], s[|s| - 1], out), limit, s, cuts, out)
  {
  }

  lemma SixMerge(a: nat, b: nat, c: nat, d: nat)
    requires a <= b <= c <= d <= UINT_MAX
    ensures var s, f := Six(a, b, c, d), Four(a, b, c, d);
            MergesBy(Digest([], s, UINT_MAX, 0, true), Digest(f, f, a, d, false), SixLimit(), s, [0, 1, 3, 5, 6], f)
  {
    SixClustered(a, b, c, d);
    FirstMerge(Six(a, b, c, d), [0, 1, 3, 5, 6], Four(a, b, c, d), SixLimit());
  }

  lemma SixTapers(a: nat, b: nat, c: nat, d: nat)
    ensures Permits(true, SixLimit(), Weight(Six(a, b, c, d)))
  {
    BeforeSingles(Six(a, b, c, d), 6);
    assert Six(a, b, c, d)[..6] == Six(a, b, c, d);
  }

  /** Inserts a list into a fresh digest. */
  lemma Fresh(tapered: bool, cs: seq<Centroid>) returns (ops: seq<Op>, states: seq<Digest>)
    requires Sound(cs)
    ensures IsRun(ops, states, tapered) && states[|ops|] == Digest([], cs, UINT_MAX, 0, true)
    ensures Single(cs) ==> OverEnded(ops)
    ensures PointsSinceReset(ops) == PointsOf(cs)
  {
    EmptyRun(tapered);
    ops, states := InsertAll([], [Cleared(true)], tapered, cs);
    assert [] + cs == cs;
  }

  lemma SixInserted(a: nat, b: nat, c: nat, d: nat) returns (ops: seq<Op>, states: seq<Digest>)
    requires a <= b <= c <= d <= UINT_MAX
    ensures IsRun(ops, states, true) && OverEnded(ops)
    ensures states[|ops|] == Digest([], Six(a, b, c, d), UINT_MAX, 0, true)
  {
    ops, states := Fresh(true, Six(a, b, c, d));
  }

  /** Six points, the middle ones in pairs, under a tapered limit. */
  lemma SixPoints(a: nat, b: nat, c: nat, d: nat) returns (ops: seq<Op>, states: seq<Digest>)
    requires a <= b <= c <= d <= UINT_MAX
    ensures IsRun(ops, states, true) && OverEnded(ops) && Merged(ops)
    ensures states[|ops|] == Digest(Four(a, b, c, d), Four(a, b, c, d), a, d, false)
  {
    var s, f := Six(a, b, c, d), Four(a, b, c, d);
    ops, states := SixInserted(a, b, c, d);
    SixMerge(a, b, c, d);
    SixTapers(a, b, c, d);
    ops, states := Merge(ops, states, true, SixLimit(), s, [0, 1, 3, 5, 6], f, Digest(f, f, a, d, false));
  }

  // --- Quantiles ---------------------------------------------------------------------------------

  lemma FourWeighs(a: nat, b: nat, c: nat, d: nat)
    ensures Weight(Four(a, b, c, d)) == 6
  {
    var f := Four(a, b, c, d);
    assert f[..0] == [] && f[..1][..0] == [] && f[..4] == f;
    WeightOfPrefix(f, 0);
    WeightOfPrefix(f, 1);
    WeightOfPrefix(f, 2);
    WeightOfPrefix(f, 3);
  }

  /** The third point from below of a digest of four centroids. */
  lemma FourAtTwo(a: nat, b: nat, c: nat, d: nat, index: nat)
    requires 1 <= index <= 2
    ensures AtIndex(Four(a, b, c, d), 6, a, d, index) == Number(Interpolate(b, c, index - 1, 2) as real)
  {
    var f := Four(a, b, c, d);
    assert PairsFrom(f, 0, 0, index) == PairsFrom(f, 1, 1, index);
  }

  lemma Halves(x: nat, q: nat)
    requires 2 * q == x
    ensures Quotient(x, 2) == q
  {
    QuotientIs(x, 2, q);
  }

  /** Latencies of two seconds are enough: the 32-bit numerator loses its carry and the query falls
      from 2^31 back to 0, below the minimum. */
  lemma CarryBreaksQuantiles() returns (ops: seq<Op>, states: seq<Digest>)
    ensures IsRun(ops, states, true) && OverEnded(ops) && Merged(ops)
    ensures var x := 0x8000_0000;
            var f := Four(x, x, x, x);
            && states[|ops|] == Digest(f, f, x, x, false)
            && Shape(f, x, x) && LastIsSafe(f) && !Fits(f) && Weight(f) == 6
            && AtIndex(f, 6, x, x, 0) == Number(x as real) && AtIndex(f, 6, x, x, 1) == Number(0.0)
  {
    var x := 0x8000_0000;
    ops, states := SixPoints(x, x, x, x);
    FourWeighs(x, x, x, x);
    FourAtTwo(x, x, x, x, 1);
    Halves(0, 0);
    assert !NumeratorFits(Four(x, x, x, x)[1], Four(x, x, x, x)[2]);
  }

  lemma SixFits()
    ensures Shape(Four(0, 4, 8, 9), 0, 9) && Fits(Four(0, 4, 8, 9))
  {
    FourWeighs(0, 4, 8, 9);
  }

  lemma SixBetween()
    ensures Interpolate(4, 8, 1, 2) == 6
  {
    Halves(12, 6);
  }

  lemma SixAnswered()
    ensures AtIndex(Four(0, 4, 8, 9), 6, 0, 9, 2) == Number(6.0)
  {
    FourAtTwo(0, 4, 8, 9, 2);
    SixBetween();
  }

  lemma SixInvented()
    ensures !FromDigest(Number(6.0), Four(0, 4, 8, 9), 0, 9)
  {
    SixFits();
    NothingBetween(Four(0, 4, 8, 9), 0, 9, 1, 6.0);
  }

  /** The points 0, 4, 4, 8, 8, 9 are answered with 6 at 40 percent. */
  lemma InventedAnswer() returns (ops: seq<Op>, states: seq<Digest>)
    ensures IsRun(ops, states, true) && OverEnded(ops) && Merged(ops)
    ensures var f := Four(0, 4, 8, 9);
            && states[|ops|] == Digest(f, f, 0, 9, false)
            && Shape(f, 0, 9) && Fits(f) && Weight(f) == 6
            && QuantileOf(f, 6, 0, 9, 40.0) == Number(6.0) && !FromDigest(Number(6.0), f, 0, 9)
  {
    ops, states := SixPoints(0, 4, 8, 9);
    FourWeighs(0, 4, 8, 9);
    SixFits();
    SixAnswered();
    SixInvented();
    assert Index(40.0, 6) == 2;
  }

  function MeanLimit(): nat -> real {
    (w: nat) => if w == 0 then 1.0 else if w == 1 then 3.0 else 0.0
  }

  const FOUR_POINTS: seq<Centroid> := [P(0), P(4), P(6), P(9)]
  const THREE_MEANS: seq<Centroid> := [P(0), Centroid(5, 2), P(9)]

  lemma FourRuns()
    ensures StandsFor(P(0), FOUR_POINTS[0..1], false) && StandsFor(Centroid(5, 2), FOUR_POINTS[1..3], false)
    ensures StandsFor(P(9), FOUR_POINTS[3..4], true)
  {
    assert FOUR_POINTS[0..1] == [P(0)] && FOUR_POINTS[3..4] == [P(9)];
    assert FOUR_POINTS[1..3] == [P(4)] + [P(6)];
    StandsAlone(P(0), false);
    StandsAlone(P(9), true);
    SumsOfConcat([P(4)], [P(6)]);
    SumsOfOne(P(4));
    SumsOfOne(P(6));
  }

  lemma FourClustered()
    ensures IsClustering(FOUR_POINTS, [0, 1, 3, 4], THREE_MEANS, MeanLimit())
  {
    FourRuns();
    forall k: nat | k <= 4
      ensures Before(FOUR_POINTS, k) == k
    {
      BeforeSingles(FOUR_POINTS, k);
    }
  }

  lemma WholePrefixWeighs(s: seq<Centroid>, n: nat)
    requires |s| == n
    ensures Before(s, n) == Weight(s)
  {
    assert s[..n] == s;
  }

  lemma FourTapers()
    ensures Permits(true, MeanLimit(), Weight(FOUR_POINTS))
  {
    BeforeSingles(FOUR_POINTS, 4);
    WholePrefixWeighs(FOUR_POINTS, 4);
  }

  lemma FourPointsOf()
    ensures PointsOf(FOUR_POINTS) == multiset{0, 4, 6, 9}
  {
    assert FOUR_POINTS[..3] == [P(0), P(4), P(6)] && [P(0), P(4), P(6)][..2] == [P(0), P(4)];
    assert [P(0), P(4)][..1] == [P(0)] && [P(0)][..0] == [];
  }

  lemma FourSingle()
    ensures Single(FOUR_POINTS) && Sound(FOUR_POINTS)
  {
  }

  lemma FourInserted() returns (ops: seq<Op>, states: seq<Digest>)
    ensures IsRun(ops, states, true) && OverEnded(ops)
    ensures states[|ops|] == Digest([], FOUR_POINTS, UINT_MAX, 0, true)
    ensures PointsSinceReset(ops) == multiset{0, 4, 6, 9}
  {
    FourSingle();
    FourPointsOf();
    ops, states := Fresh(true, FOUR_POINTS);
  }

  lemma ThreeMeansReached() returns (ops: seq<Op>, states: seq<Digest>)
    ensures IsRun(ops, states, true) && OverEnded(ops) && Merged(ops)
    ensures states[|ops|] == Digest(THREE_MEANS, THREE_MEANS, 0, 9, false)
    ensures PointsSinceReset(ops) == multiset{0, 4, 6, 9}
  {
    ops, states := FourInserted();
    FourClustered();
    FourTapers();
    FirstMerge(FOUR_POINTS, [0, 1, 3, 4], THREE_MEANS, MeanLimit());
    ops, states := Merge(ops, states, true, MeanLimit(), FOUR_POINTS, [0, 1, 3, 4], THREE_MEANS,
                         Digest(THREE_MEANS, THREE_MEANS, 0, 9, false));
  }

  lemma ThreeMeansWeigh()
    ensures Weight(THREE_MEANS) == 4 && Shape(THREE_MEANS, 0, 9) && Fits(THREE_MEANS)
    ensures LastIsSafe(THREE_MEANS) && TailsHaveNoRoom(THREE_MEANS, 0, 9) && NoRoomInside(THREE_MEANS)
  {
    SumsOfThree([P(0)], Centroid(5, 2), [P(9)]);
    assert THREE_MEANS == [P(0)] + [Centroid(5, 2)] + [P(9)];
    SumsOfConcat([P(0)], [P(9)]);
    SumsOfOne(P(0));
    SumsOfOne(P(9));
  }

  lemma FiveAnswered()
    ensures AtIndex(THREE_MEANS, 4, 0, 9, 1) == Number(5.0)
  {
    assert Interpolate(5, 9, 0, 1) == 5 by {
      LeftEnd(5, 9);
    }
    assert PairsFrom(THREE_MEANS, 0, 0, 1) == PairsFrom(THREE_MEANS, 1, 1, 1);
  }

  lemma FiveIsNoPoint()
    ensures QuantileOf(THREE_MEANS, 4, 0, 9, 30.0) == Number(5.0) && !IsPoint(Number(5.0), multiset{0, 4, 6, 9})
  {
    FiveAnswered();
    assert Index(30.0, 4) == 1;
  }

  /** The points 0, 4, 6, 9: the digest makes nothing up, yet answers 5 at 30 percent, the mean of a
      centroid of two, which is none of them. */
  lemma MeanIsNoPoint() returns (ops: seq<Op>, states: seq<Digest>)
    ensures IsRun(ops, states, true) && OverEnded(ops) && Merged(ops)
    ensures states[|ops|] == Digest(THREE_MEANS, THREE_MEANS, 0, 9, false)
    ensures PointsSinceReset(ops) == multiset{0, 4, 6, 9}
    ensures && Weight(THREE_MEANS) == 4 && Shape(THREE_MEANS, 0, 9) && Fits(THREE_MEANS) && LastIsSafe(THREE_MEANS)
            && TailsHaveNoRoom(THREE_MEANS, 0, 9) && NoRoomInside(THREE_MEANS)
    ensures QuantileOf(THREE_MEANS, 4, 0, 9, 30.0) == Number(5.0) && !IsPoint(Number(5.0), multiset{0, 4, 6, 9})
  {
    ops, states := ThreeMeansReached();
    ThreeMeansWeigh();
    FiveIsNoPoint();
  }

  lemma PairWeighs(c: Centroid, d: Centroid)
    ensures Weight([c, d]) == c.weight + d.weight
  {
    SumsOfConcat([c], [d]);
    SumsOfOne(c);
    SumsOfOne(d);
    assert [c, d] == [c] + [d];
  }

  function Nines(): seq<Centroid> {
    [P(9), Centroid(9, 2)]
  }

  lemma NinesInserted() returns (ops: seq<Op>, states: seq<Digest>)
    ensures IsRun(ops, states, true) && states[|ops|] == Digest([P(9)], Nines(), 9, 9, false)
  {
    ops, states := Fresh(true, [P(9)]);
    ops, states := MergeNothing(ops, states, true, [P(9)], [P(9)]);
    ops, states := InsertOne(ops, states, true, Centroid(9, 2));
  }

  /** A value inserted with weight two next to its equal, and the query divides zero by zero. */
  lemma WeightOfTwoBreaks() returns (ops: seq<Op>, states: seq<Digest>)
    ensures IsRun(ops, states, true) && Merged(ops)
    ensures states[|ops|] == Digest(Nines(), Nines(), 9, 9, true)
    ensures Weight(Nines()) == 3 && Shape(Nines(), 9, 9) && AtIndex(Nines(), 3, 9, 9, 2).NotANumber?
  {
    ops, states := NinesInserted();
    ops, states := MergeNothing(ops, states, true, Nines(), Nines());
    PairWeighs(P(9), Centroid(9, 2));
    NotANumberIff(Nines(), 9, 9, 2);
  }

  function Tied(): seq<Centroid> {
    [P(5), P(5), Centroid(5, 2), Centroid(5, 2)]
  }

  lemma TiedWeighs()
    ensures multiset(Four(5, 5, 5, 5)) == multiset(Tied()) && Weight(Tied()) == 6
  {
    FourWeighs(5, 5, 5, 5);
    SumsOfRearranged(Four(5, 5, 5, 5), Tied());
  }

  lemma TiedBreaks()
    ensures Weight(Tied()) == 6 && Shape(Tied(), 5, 5) && AtIndex(Tied(), 6, 5, 5, 5).NotANumber?
  {
    TiedWeighs();
    NotANumberIff(Tied(), 5, 5, 5);
  }

  lemma TiedReorders()
    ensures var f := Four(5, 5, 5, 5); Reorders(Digest(f, f, 5, 5, false), f, Tied())
  {
    TiedWeighs();
  }

  lemma TiedReached() returns (ops: seq<Op>, states: seq<Digest>)
    ensures IsRun(ops, states, true) && OverEnded(ops) && Merged(ops)
    ensures states[|ops|] == Digest(Tied(), Tied(), 5, 5, true)
  {
    ops, states := SixPoints(5, 5, 5, 5);
    TiedReorders();
    ops, states := MergeNothing(ops, states, true, Four(5, 5, 5, 5), Tied());
  }

  /** Even a digest of single points may end in a centroid of two: six equal points, merged twice, when
      the sort leaves a pair behind the points it equals. */
  lemma TiesBreak() returns (ops: seq<Op>, states: seq<Digest>)
    ensures IsRun(ops, states, true) && OverEnded(ops) && Merged(ops)
    ensures states[|ops|] == Digest(Tied(), Tied(), 5, 5, true)
    ensures Weight(Tied()) == 6 && Shape(Tied(), 5, 5) && AtIndex(Tied(), 6, 5, 5, 5).NotANumber?
  {
    ops, states := TiedReached();
    TiedBreaks();
  }

  // --- The distribution function -----------------------------------------------------------------

  /** A limit that lets the first run take a second point, which a tapered one does not. */
  function PairLimit(): nat -> real {
    (w: nat) => if w == 0 then 2.0 else 0.0
  }

  lemma PairClustered(x: nat, y: nat, z: nat, m: nat)
    requires 2 * m <= x + y + 1 < 2 * m + 2
    ensures IsClustering([P(x), P(y), P(z)], [0, 2, 3], [Centroid(m, 2), P(z)], PairLimit())
  {
    var s := [P(x), P(y), P(z)];
    forall k: nat | k <= 3
      ensures Before(s, k) == k
    {
      BeforeSingles(s, k);
    }
    assert s[0..2] == [P(x)] + [P(y)] && s[2..3] == [P(z)];
    SumsOfConcat([P(x)], [P(y)]);
    SumsOfOne(P(x));
    SumsOfOne(P(y));
    StandsAlone(P(z), true);
  }

  function Fallen(): seq<Centroid> {
    [P(0), Centroid(7, 2)]
  }

  lemma FallenInserted() returns (ops: seq<Op>, states: seq<Digest>)
    ensures IsRun(ops, states, false) && OverEnded(ops)
    ensures states[|ops|] == Digest([P(0), P(9)], [P(0), P(9), P(5)], 0, 9, false)
  {
    ops, states := Fresh(false, [P(0), P(9)]);
    ops, states := MergeNothing(ops, states, false, [P(0), P(9)], [P(0), P(9)]);
    ops, states := InsertOne(ops, states, false, P(5));
  }

  lemma BackwardMerge(st: Digest, sorted: seq<Centroid>, cuts: seq<nat>, out: seq<Centroid>, active: seq<Centroid>,
                      limit: nat -> real)
    requires !st.forward && sorted != [] && multiset(sorted) == multiset(st.buffered) && Descending(sorted)
    requires multiset(out) == multiset(active) && Ascending(active) && IsClustering(sorted, cuts, out, limit)
    ensures MergesBy(st, After(st, sorted[|sorted| - 1], sorted[0], active), limit, sorted, cuts, out)
  {
  }

  lemma FallenSorted()
    ensures multiset([P(9), P(5), P(0)]) == multiset([P(0), P(9), P(5)])
    ensures multiset([Centroid(7, 2), P(0)]) == multiset(Fallen())
  {
  }

  lemma FallenMerge()
    ensures MergesBy(Digest([P(0), P(9)], [P(0), P(9), P(5)], 0, 9, false), Digest(Fallen(), Fallen(), 0, 9, true),
              PairLimit(),
                     [P(9), P(5), P(0)], [0, 2, 3], [Centroid(7, 2), P(0)])
  {
    var st := Digest([P(0), P(9)], [P(0), P(9), P(5)], 0, 9, false);
    PairClustered(9, 5, 0, 7);
    FallenSorted();
    BackwardMerge(st, [P(9), P(5), P(0)], [0, 2, 3], [Centroid(7, 2), P(0)], Fallen(), PairLimit());
  }

  /** A descending pass that pairs the largest point leaves the last mean below the maximum: the
      distribution function falls back to zero. */
  lemma HighTailReached() returns (ops: seq<Op>, states: seq<Digest>)
    ensures IsRun(ops, states, false) && OverEnded(ops) && Merged(ops)
    ensures states[|ops|] == Digest(Fallen(), Fallen(), 0, 9, true) && Shape(Fallen(), 0, 9)
    ensures Weight(Fallen()) > 0 && !GrowsBetweenExtremes(Fallen(), 0, 9)
  {
    ops, states := FallenInserted();
    FallenMerge();
    ops, states := Merge(ops, states, false, PairLimit(), [P(9), P(5), P(0)], [0, 2, 3], [Centroid(7, 2), P(0)],
                         Digest(Fallen(), Fallen(), 0, 9, true));
    PairWeighs(P(0), Centroid(7, 2));
    MonotoneIff(Fallen(), 0, 9);
  }

  function Undercut(): seq<Centroid> {
    [P(1), Centroid(2, 2), P(9)]
  }

  lemma UndercutMerged() returns (ops: seq<Op>, states: seq<Digest>)
    ensures IsRun(ops, states, false) && OverEnded(ops)
    ensures var out := [Centroid(2, 2), P(9)]; states[|ops|] == Digest(out, out, 0, 9, false)
  {
    var sorted, out := [P(0), P(4), P(9)], [Centroid(2, 2), P(9)];
    ops, states := Fresh(false, sorted);
    PairClustered(0, 4, 9, 2);
    FirstMerge(sorted, [0, 2, 3], out, PairLimit());
    ops, states := Merge(ops, states, false, PairLimit(), sorted, [0, 2, 3], out, Digest(out, out, 0, 9, false));
  }

  lemma UndercutInserted() returns (ops: seq<Op>, states: seq<Digest>)
    ensures IsRun(ops, states, false) && OverEnded(ops)
    ensures states[|ops|] == Digest([Centroid(2, 2), P(9)], [Centroid(2, 2), P(9), P(1)], 0, 9, false)
  {
    ops, states := UndercutMerged();
    ops, states := InsertOne(ops, states, false, P(1));
  }

  lemma UndercutWeighs()
    ensures Weight(Undercut()) == 4
  {
    PairWeighs(P(1), Centroid(2, 2));
    SumsOfConcat([P(1), Centroid(2, 2)], [P(9)]);
    SumsOfOne(P(9));
    assert Undercut() == [P(1), Centroid(2, 2)] + [P(9)];
  }

  lemma UndercutSame()
    ensures multiset([P(9), Centroid(2, 2), P(1)]) == multiset([Centroid(2, 2), P(9), P(1)]) == multiset(Undercut())
  {
  }

  lemma UndercutReorders()
    ensures Reorders(Digest([Centroid(2, 2), P(9)], [Centroid(2, 2), P(9), P(1)], 0, 9, false),
                     [P(9), Centroid(2, 2), P(1)], Undercut())
  {
    UndercutSame();
  }

  /** An ascending pass that pairs the smallest point, then a point just above it: the distribution
      function starts above what it answers at the first mean. */
  lemma LowTailReached() returns (ops: seq<Op>, states: seq<Digest>)
    ensures IsRun(ops, states, false) && OverEnded(ops) && Merged(ops)
    ensures states[|ops|] == Digest(Undercut(), Undercut(), 0, 9, true) && Shape(Undercut(), 0, 9)
    ensures Weight(Undercut()) > 0 && !GrowsBetweenExtremes(Undercut(), 0, 9)
  {
    ops, states := UndercutInserted();
    UndercutReorders();
    ops, states := MergeNothing(ops, states, false, [P(9), Centroid(2, 2), P(1)], Undercut());
    UndercutWeighs();
    MonotoneIff(Undercut(), 0, 9);
  }
}
