/** What a tapered limit adds: the extremes of a digest of points are the means of its outermost
    centroids, and an extreme that a single point attains stays a centroid of its own. */
module DigestEnds {
  import opened Arithmetic
  import opened Sorting
  import opened Centroids
  import opened Clustering
  import opened Merging
  import opened Digests
  import opened DigestPoints

  // --- Means at the extremes ---------------------------------------------------------------------

  ghost predicate ReachesUp(cs: seq<Centroid>, x: nat) {
    exists c :: c in cs && c.mean >= x
  }

  ghost predicate ReachesDown(cs: seq<Centroid>, x: nat) {
    exists c :: c in cs && c.mean <= x
  }

  /** A merge neither lowers the highest mean nor raises the lowest. */
  lemma MergeReaches(st: Digest, st': Digest, limit: nat -> real, x: nat)
    requires WellFormed(st) && MergesTo(st, st', limit) && Permits(true, limit, Weight(st.buffered))
    ensures ReachesUp(st.buffered, x) ==> ReachesUp(st'.buffered, x)
    ensures ReachesDown(st.buffered, x) ==> ReachesDown(st'.buffered, x)
  {
    if st.buffered != [] {
      var sorted, cuts, out :| MergesBy(st, st', limit, sorted, cuts, out);
      WeightIsPositive(st.buffered);
      MergeKeepsEnds(st.buffered, st.forward, limit, sorted, cuts, out, st'.active);
      EndsAreExtreme(sorted, st.buffered);
    }
  }

  lemma InsertReaches(st: Digest, c: Centroid, full: bool, limit: nat -> real, st': Digest, x: nat)
    requires WellFormed(st) && Sound([c]) && InsertsTo(st, c, full, limit, st')
    requires Permits(true, limit, Weight(st.buffered) + c.weight)
    ensures ReachesUp(st.buffered, x) || c.mean >= x ==> ReachesUp(st'.buffered, x)
    ensures ReachesDown(st.buffered, x) || c.mean <= x ==> ReachesDown(st'.buffered, x)
  {
    var mid := st.(buffered := st.buffered + [c]);
    InsertKeeps(st, c, false, limit, mid);
    assert c in mid.buffered && forall d :: d in st.buffered ==> d in mid.buffered;
    if full {
      MergeReaches(mid, st', limit, x);
    }
  }

  lemma ReachesLast(cs: seq<Centroid>, x: nat)
    requires cs != []
    ensures ReachesUp(cs, x) ==> ReachesUp(cs[..|cs| - 1], x) || cs[|cs| - 1].mean >= x
    ensures ReachesDown(cs, x) ==> ReachesDown(cs[..|cs| - 1], x) || cs[|cs| - 1].mean <= x
  {
    assert forall c :: c in cs ==> c in cs[..|cs| - 1] || c == cs[|cs| - 1];
  }

  lemma {:induction false} FeedReaches(st: Digest, cs: seq<Centroid>, st': Digest, x: nat)
    requires WellFormed(st) && Sound(cs) && FedTo(st, cs, st', true)
    ensures ReachesUp(st.buffered, x) || ReachesUp(cs, x) ==> ReachesUp(st'.buffered, x)
    ensures ReachesDown(st.buffered, x) || ReachesDown(cs, x) ==> ReachesDown(st'.buffered, x)
    decreases |cs|
  {
    if cs == [] {
    } else {
      var front, c := cs[..|cs| - 1], cs[|cs| - 1];
      var mid, full, limit := LastFed(st, cs, st', true);
      FeedReaches(st, front, mid, x);
      FeedKeeps(st, front, mid, true);
      InsertReaches(mid, c, full, limit, st', x);
      ReachesLast(cs, x);
    }
  }

  /** The outermost centroids of the active digest have the extremes as their means. */
  ghost predicate Anchored(st: Digest, absorbed: multiset<nat>) {
    absorbed != multiset{} ==>
      st.active != [] && st.active[0].mean == st.lo && st.active[|st.active| - 1].mean == st.hi
  }

  lemma AnchoredReaches(st: Digest, absorbed: multiset<nat>)
    requires Anchored(st, absorbed) && absorbed != multiset{} && st.active <= st.buffered
    ensures ReachesDown(st.active, st.lo) && ReachesUp(st.active, st.hi)
    ensures ReachesDown(st.buffered, st.lo) && ReachesUp(st.buffered, st.hi)
  {
    assert st.active[0] in st.active && st.active[|st.active| - 1] in st.active;
    assert forall c :: c in st.active ==> c in st.buffered;
  }

  lemma ExtremesReach(st: Digest, lo: nat, hi: nat, absorbed: multiset<nat>, unseen: multiset<nat>)
    requires Tracks(st, absorbed, unseen)
    requires absorbed != multiset{} ==> ReachesDown(st.buffered, st.lo) && ReachesUp(st.buffered, st.hi)
    requires IsMin(lo, absorbed + unseen) && IsMax(hi, absorbed + unseen) && absorbed + unseen != multiset{}
    ensures ReachesDown(st.buffered, lo) && ReachesUp(st.buffered, hi)
  {
    if lo in unseen {
      assert Centroid(lo, 1) in st.buffered;
    } else {
      assert lo in absorbed;
    }
    if hi in unseen {
      assert Centroid(hi, 1) in st.buffered;
    } else {
      assert hi in absorbed;
    }
  }

  lemma ReachedEnds(cs: seq<Centroid>, lo: nat, hi: nat)
    requires Ascending(cs) && Within(cs, lo, hi) && ReachesDown(cs, lo) && ReachesUp(cs, hi)
    ensures cs != [] && cs[0].mean == lo && cs[|cs| - 1].mean == hi
  {
    var c :| c in cs && c.mean <= lo;
    var d :| d in cs && d.mean >= hi;
    assert cs[0] in cs && cs[|cs| - 1] in cs;
  }

  lemma MergeAnchors(st: Digest, st': Digest, limit: nat -> real, absorbed: multiset<nat>, unseen: multiset<nat>)
    requires WellFormed(st) && Tracks(st, absorbed, unseen)
    requires MergesTo(st, st', limit) && Permits(true, limit, Weight(st.buffered))
    requires absorbed != multiset{} ==> ReachesDown(st.buffered, st.lo) && ReachesUp(st.buffered, st.hi)
    ensures Anchored(st', absorbed + unseen)
  {
    MergeTracks(st, st', limit, absorbed, unseen);
    if absorbed + unseen != multiset{} {
      assert absorbed + unseen + multiset{} == absorbed + unseen;
      ExtremesReach(st, st'.lo, st'.hi, absorbed, unseen);
      MergeReaches(st, st', limit, st'.lo);
      MergeReaches(st, st', limit, st'.hi);
      MergeKeeps(st, st', limit);
      ReachedEnds(st'.active, st'.lo, st'.hi);
    }
  }

  /** Every point of either digest is reached by what is buffered here or active there. */
  lemma PointsAreReached(st: Digest, src: Digest, absorbed: multiset<nat>, unseen: multiset<nat>,
                         points: multiset<nat>, pending: multiset<nat>, p: nat)
    requires Tracks(st, absorbed, unseen) && Anchored(st, absorbed) && st.active <= st.buffered
    requires Tracks(src, points, pending) && Anchored(src, points) && src.active <= src.buffered
    requires p in absorbed + unseen + points
    ensures ReachesUp(st.buffered, p) || ReachesUp(src.active, p)
    ensures ReachesDown(st.buffered, p) || ReachesDown(src.active, p)
  {
    if p in unseen {
      assert Centroid(p, 1) in st.buffered;
    } else if p in absorbed {
      AnchoredReaches(st, absorbed);
    } else {
      AnchoredReaches(src, points);
    }
  }

  lemma FedReaches(st: Digest, src: Digest, mid: Digest, absorbed: multiset<nat>, unseen: multiset<nat>,
                   points: multiset<nat>, pending: multiset<nat>, p: nat)
    requires WellFormed(st) && Tracks(st, absorbed, unseen) && Anchored(st, absorbed)
    requires WellFormed(src) && Tracks(src, points, pending) && Anchored(src, points)
    requires FedTo(Widened(st, src), src.active, mid, true) && p in absorbed + unseen + points
    ensures ReachesUp(mid.buffered, p) && ReachesDown(mid.buffered, p)
  {
    PointsAreReached(st, src, absorbed, unseen, points, pending, p);
    assert Sound(src.active);
    FeedReaches(Widened(st, src), src.active, mid, p);
  }

  lemma AbsorbAnchors(st: Digest, src: Digest, st': Digest, absorbed: multiset<nat>, unseen: multiset<nat>,
                      points: multiset<nat>, pending: multiset<nat>)
    requires WellFormed(st) && Tracks(st, absorbed, unseen) && Anchored(st, absorbed)
    requires WellFormed(src) && Tracks(src, points, pending) && Anchored(src, points)
    requires AbsorbsTo(st, src, st', true)
    ensures Anchored(st', absorbed + unseen + points)
  {
    var mid, limit := AbsorbPath(st, src, st', true);
    FedDigestKeeps(st, src, mid, true);
    var absorbed', unseen' := FedDigestTracks(st, src, mid, true, absorbed, unseen, points, pending);
    if absorbed' != multiset{} {
      assert mid.lo in absorbed' + unseen' && mid.hi in absorbed' + unseen';
      FedReaches(st, src, mid, absorbed, unseen, points, pending, mid.lo);
      FedReaches(st, src, mid, absorbed, unseen, points, pending, mid.hi);
    }
    MergeAnchors(mid, st', limit, absorbed', unseen');
  }
}
