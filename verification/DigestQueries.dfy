/** What the queries of a digest answer after any run over points. */
module DigestQueries {
  import opened Centroids
  import opened Digests
  import opened DigestPoints
  import opened DigestEnds
  import opened DigestTops
  import opened DigestRuns
  import opened Quantile
  import opened OrderStatistics
  import opened Cdf

  lemma RunHasShape(ops: seq<Op>, states: seq<Digest>, tapered: bool)
    requires IsRun(ops, states, tapered) && OverPoints(ops) && Merged(ops)
    requires WeightSinceReset(ops) <= UINT_MAX && states[|ops|].active != []
    ensures var st := states[|ops|];
            Shape(st.active, st.lo, st.hi) && Weight(st.active) == WeightSinceReset(ops)
  {
    var st := states[|ops|];
    RunKeepsWeight(ops, states, tapered);
    RunKeepsExtremes(ops, states, tapered);
    assert st.active[0] in st.active && st.active[|st.active| - 1] in st.active;
    var absorbed, unseen := RunAccounts(ops, states, tapered);
  }

  /** After any merge of a run over points, quantiles lie between the exact minimum and the exact
      maximum of all points since the last reset and grow with the percentage. */
  lemma QuantilesOfARun(ops: seq<Op>, states: seq<Digest>, tapered: bool, p: real, q: real)
    requires IsRun(ops, states, tapered) && OverPoints(ops) && Merged(ops)
    requires WeightSinceReset(ops) <= UINT_MAX && states[|ops|].active != []
    requires Fits(states[|ops|].active) && LastIsSafe(states[|ops|].active) && 0.0 <= p <= q <= 100.0
    ensures var st := states[|ops|];
            var x, y := QuantileOf(st.active, WeightSinceReset(ops), st.lo, st.hi, p),
                        QuantileOf(st.active, WeightSinceReset(ops), st.lo, st.hi, q);
            && IsMin(st.lo, PointsSinceReset(ops)) && IsMax(st.hi, PointsSinceReset(ops))
            && x.Number? && y.Number? && st.lo as real <= x.v <= y.v <= st.hi as real
  {
    RunHasShape(ops, states, tapered);
    RunKeepsExtremes(ops, states, tapered);
    QuantileMonotone(states[|ops|].active, states[|ops|].lo, states[|ops|].hi, p, q);
  }

  /** Between the extremes of the points the distribution function answers with a probability. */
  lemma ProbabilitiesOfARun(ops: seq<Op>, states: seq<Digest>, tapered: bool, x: nat)
    requires IsRun(ops, states, tapered) && OverPoints(ops) && Merged(ops)
    requires WeightSinceReset(ops) <= UINT_MAX && states[|ops|].active != []
    requires states[|ops|].lo <= x <= states[|ops|].hi
    ensures var st := states[|ops|];
            && WeightSinceReset(ops) > 0
            && 0.0 <= CdfOf(st.active, WeightSinceReset(ops), st.lo, st.hi, x) <= 1.0
  {
    RunHasShape(ops, states, tapered);
    CdfIsProbability(states[|ops|].active, states[|ops|].lo, states[|ops|].hi, x);
  }

  // --- Values of the data ------------------------------------------------------------------------

  /** After any merge of a run over points whose digest makes nothing up, every answer is one of the
      points since the last reset if and only if the mean of every heavy centroid is. */
  lemma QuantilesOfARunArePointsIff(ops: seq<Op>, states: seq<Digest>, tapered: bool)
    requires IsRun(ops, states, tapered) && OverPoints(ops) && Merged(ops)
    requires WeightSinceReset(ops) <= UINT_MAX && |states[|ops|].active| >= 2
    requires var st := states[|ops|];
             && Fits(st.active) && LastIsSafe(st.active)
             && TailsHaveNoRoom(st.active, st.lo, st.hi) && NoRoomInside(st.active)
    ensures var st, points := states[|ops|], PointsSinceReset(ops);
            (forall p :: 0.0 <= p <= 100.0 ==>
               IsPoint(QuantileOf(st.active, WeightSinceReset(ops), st.lo, st.hi, p), points))
            <==> forall c :: c in st.active && c.weight > 1 ==> c.mean in points
  {
    var st := states[|ops|];
    RunHasShape(ops, states, tapered);
    RunKeepsExtremes(ops, states, tapered);
    WeightIsPositive(st.active);
    QuantilesArePointsIff(st.active, st.lo, st.hi, PointsSinceReset(ops));
  }

  /** It is enough that every heavy centroid sits at an extreme, which can be seen in the digest. */
  lemma HeavyAtExtremesArePoints(ops: seq<Op>, states: seq<Digest>, tapered: bool, p: real)
    requires IsRun(ops, states, tapered) && OverPoints(ops) && Merged(ops)
    requires WeightSinceReset(ops) <= UINT_MAX && |states[|ops|].active| >= 2 && 0.0 <= p <= 100.0
    requires var st := states[|ops|];
             && Fits(st.active) && LastIsSafe(st.active)
             && TailsHaveNoRoom(st.active, st.lo, st.hi) && NoRoomInside(st.active)
             && forall c :: c in st.active && c.weight > 1 ==> c.mean == st.lo || c.mean == st.hi
    ensures var st := states[|ops|];
            IsPoint(QuantileOf(st.active, WeightSinceReset(ops), st.lo, st.hi, p), PointsSinceReset(ops))
  {
    var st := states[|ops|];
    RunHasShape(ops, states, tapered);
    RunKeepsExtremes(ops, states, tapered);
    WeightIsPositive(st.active);
    QuantilesOfARunArePointsIff(ops, states, tapered);
  }

  // --- Tapered limits ----------------------------------------------------------------------------

  lemma TaperedTails(ops: seq<Op>, states: seq<Digest>)
    requires IsRun(ops, states, true) && OverEnded(ops) && Merged(ops)
    requires WeightSinceReset(ops) <= UINT_MAX && |states[|ops|].active| >= 2
    ensures var st := states[|ops|];
            Shape(st.active, st.lo, st.hi) && Weight(st.active) == WeightSinceReset(ops)
                && TailsHarmless(st.active, st.lo, st.hi)
  {
    var st := states[|ops|];
    RunHasShape(ops, states, true);
    RunKeepsExtremes(ops, states, true);
    WeightIsPositive(st.active);
    TaperedRunEnds(ops, states);
  }

  /** Under tapered limits the distribution function of a digest of points grows between the extremes. */
  lemma ProbabilitiesGrow(ops: seq<Op>, states: seq<Digest>, x: nat, y: nat)
    requires IsRun(ops, states, true) && OverEnded(ops) && Merged(ops)
    requires WeightSinceReset(ops) <= UINT_MAX && |states[|ops|].active| >= 2
    requires states[|ops|].lo <= x <= y <= states[|ops|].hi
    ensures var st := states[|ops|];
            && Weight(st.active) == WeightSinceReset(ops) > 0
            && 0.0 <= CdfOf(st.active, WeightSinceReset(ops), st.lo, st.hi, x)
            && CdfOf(st.active, WeightSinceReset(ops), st.lo, st.hi, x)
               <= CdfOf(st.active, WeightSinceReset(ops), st.lo, st.hi, y) <= 1.0
  {
    var st := states[|ops|];
    TaperedTails(ops, states);
    HarmlessGrows(st.active, st.lo, st.hi, x, y);
    CdfIsProbability(st.active, st.lo, st.hi, x);
    CdfIsProbability(st.active, st.lo, st.hi, y);
  }

  /** Under tapered limits, and if the maximum was inserted once, no percentage breaks the query. */
  lemma QuantilesGrow(ops: seq<Op>, states: seq<Digest>, p: real, q: real)
    requires IsRun(ops, states, true) && OverEnded(ops) && Merged(ops)
    requires WeightSinceReset(ops) <= UINT_MAX && states[|ops|].active != []
    requires PointsSinceReset(ops)[states[|ops|].hi] == 1
    requires Fits(states[|ops|].active) && 0.0 <= p <= q <= 100.0
    ensures var st := states[|ops|];
            var x, y := QuantileOf(st.active, WeightSinceReset(ops), st.lo, st.hi, p),
                        QuantileOf(st.active, WeightSinceReset(ops), st.lo, st.hi, q);
            && LastIsSafe(st.active)
            && x.Number? && y.Number? && st.lo as real <= x.v <= y.v <= st.hi as real
  {
    TaperedRunEnds(ops, states);
    QuantilesOfARun(ops, states, true, p, q);
  }
}
