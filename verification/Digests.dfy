/** The digest as a value, the steps its operations take, and what every step and every run keeps. */
module Digests {
  import opened Arithmetic
  import opened Sorting
  import opened Centroids
  import opened Clustering
  import opened Merging

  /** The active centroids; the buffer, which starts with them; the extremes; the next direction. */
  datatype Digest = Digest(active: seq<Centroid>, buffered: seq<Centroid>, lo: nat, hi: nat, forward: bool)

  function Cleared(forward: bool): Digest {
    Digest([], [], UINT_MAX, 0, forward)
  }

  /** An end of the sorted buffer moves an extreme only when it is a single point. */
  function LowEnd(lo: nat, low: Centroid): nat {
    Min(lo, if low.weight == 1 then low.mean else UINT_MAX)
  }

  function HighEnd(hi: nat, high: Centroid): nat {
    Max(hi, if high.weight == 1 then high.mean else 0)
  }

  /** One merge: the buffer is clustered into the new active side, which also seeds the buffer. */
  ghost predicate MergesBy(st: Digest, st': Digest, limit: nat -> real,
                           sorted: seq<Centroid>, cuts: seq<nat>, out: seq<Centroid>) {
    && IsMergeOf(st.buffered, st.forward, limit, sorted, cuts, out, st'.active)
    && sorted != []
    && st'.buffered == st'.active
    && st'.forward == !st.forward
    && st'.lo == LowEnd(st.lo, if st.forward then sorted[0] else sorted[|sorted| - 1])
    && st'.hi == HighEnd(st.hi, if st.forward then sorted[|sorted| - 1] else sorted[0])
  }

  ghost predicate MergesTo(st: Digest, st': Digest, limit: nat -> real) {
    if st.buffered == [] then st' == st
    else exists sorted, cuts, out :: MergesBy(st, st', limit, sorted, cuts, out)
  }

  /** One insertion; a full buffer is merged at once. */
  ghost predicate InsertsTo(st: Digest, c: Centroid, full: bool, limit: nat -> real, st': Digest) {
    var mid := st.(buffered := st.buffered + [c]);
    if full then MergesTo(mid, st', limit) else st' == mid
  }

  function Widened(st: Digest, src: Digest): Digest {
    st.(lo := Min(st.lo, src.lo), hi := Max(st.hi, src.hi))
  }

  /** Any limit may do, or only tapered ones. */
  ghost predicate Permits(tapered: bool, limit: nat -> real, total: nat) {
    tapered && total > 0 ==> Tapered(limit, total)
  }

  /** A list of centroids inserted one by one. */
  ghost predicate FedTo(st: Digest, cs: seq<Centroid>, st': Digest, tapered: bool)
    decreases |cs|
  {
    if cs == [] then st' == st
    else
      var front, last := cs[..|cs| - 1], cs[|cs| - 1];
      exists mid, full, limit ::
        && FedTo(st, front, mid, tapered)
        && InsertsTo(mid, last, full, limit, st')
        && Permits(tapered, limit, Weight(mid.buffered) + last.weight)
  }

  /** Another digest inserted: its extremes, then its active centroids, then a merge. */
  ghost predicate AbsorbsTo(st: Digest, src: Digest, st': Digest, tapered: bool) {
    exists mid, limit ::
      && FedTo(Widened(st, src), src.active, mid, tapered)
      && MergesTo(mid, st', limit)
      && Permits(tapered, limit, Weight(mid.buffered))
  }

  // --- What every step keeps ---------------------------------------------------------------------

  /** The buffer is the active digest, in order, followed by what is pending. */
  ghost predicate WellFormed(st: Digest) {
    st.active <= st.buffered && Ascending(st.active) && Sound(st.buffered)
  }

  lemma MergeKeeps(st: Digest, st': Digest, limit: nat -> real)
    requires WellFormed(st) && MergesTo(st, st', limit)
    ensures WellFormed(st') && st'.buffered == st'.active
    ensures Weight(st'.active) == Weight(st.buffered)
    ensures st.buffered != [] ==> Abs(Moment(st'.active) - Moment(st.buffered)) < Weight(st.buffered)
    ensures |st'.active| <= |st.buffered|
  {
    if st.buffered != [] {
      var sorted, cuts, out :| MergesBy(st, st', limit, sorted, cuts, out);
      MergeConserves(st.buffered, st.forward, limit, sorted, cuts, out, st'.active);
      MergeInHull(st.buffered, st.forward, limit, sorted, cuts, out, st'.active, 0, UINT_MAX);
    } else {
      assert st.active == [];
    }
  }

  lemma InsertKeeps(st: Digest, c: Centroid, full: bool, limit: nat -> real, st': Digest)
    requires WellFormed(st) && Sound([c]) && InsertsTo(st, c, full, limit, st')
    ensures WellFormed(st') && Weight(st'.buffered) == Weight(st.buffered) + c.weight
  {
    var mid := st.(buffered := st.buffered + [c]);
    assert c in [c];
    SumsOfConcat(st.buffered, [c]);
    SumsOfOne(c);
    if full {
      MergeKeeps(mid, st', limit);
    }
  }

  // --- Extremes ----------------------------------------------------------------------------------

  ghost predicate IsMin(m: nat, points: multiset<nat>) {
    if points == multiset{} then m == UINT_MAX else m in points && forall p :: p in points ==> m <= p
  }

  ghost predicate IsMax(m: nat, points: multiset<nat>) {
    if points == multiset{} then m == 0 else m in points && forall p :: p in points ==> m >= p
  }

  /** A buffered centroid is either a point that no merge has seen, or lies between the extremes. */
  ghost predicate Explained(c: Centroid, lo: nat, hi: nat, absorbed: multiset<nat>, unseen: multiset<nat>) {
    (c.weight == 1 && c.mean in unseen) || (absorbed != multiset{} && lo <= c.mean <= hi)
  }

  ghost predicate UnseenIn(unseen: multiset<nat>, cs: seq<Centroid>) {
    forall p :: p in unseen ==> p <= UINT_MAX && Centroid(p, 1) in cs
  }

  /** Looking only at the lowest centroid, and only when it is a single point, still finds the
      exact minimum: a heavy lowest centroid proves that no new point is below the old minimum. */
  lemma LowestIsEnough(cs: seq<Centroid>, a: Centroid, lo: nat, hi: nat,
                       absorbed: multiset<nat>, unseen: multiset<nat>)
    requires a in cs && forall c :: c in cs ==> a.mean <= c.mean
    requires IsMin(lo, absorbed) && UnseenIn(unseen, cs) && lo <= UINT_MAX
    requires Explained(a, lo, hi, absorbed, unseen)
    ensures IsMin(LowEnd(lo, a), absorbed + unseen)
  {
    forall p | p in unseen
      ensures a.mean <= p <= UINT_MAX
    {
      assert Centroid(p, 1) in cs;
    }
  }

  lemma HighestIsEnough(cs: seq<Centroid>, b: Centroid, lo: nat, hi: nat,
                        absorbed: multiset<nat>, unseen: multiset<nat>)
    requires b in cs && forall c :: c in cs ==> b.mean >= c.mean
    requires IsMax(hi, absorbed) && UnseenIn(unseen, cs)
    requires Explained(b, lo, hi, absorbed, unseen)
    ensures IsMax(HighEnd(hi, b), absorbed + unseen)
  {
    forall p | p in unseen
      ensures b.mean >= p
    {
      assert Centroid(p, 1) in cs;
    }
  }

  lemma AllWithinExtremes(cs: seq<Centroid>, lo: nat, hi: nat, lo': nat, hi': nat,
                          absorbed: multiset<nat>, unseen: multiset<nat>)
    requires forall c :: c in cs ==> Explained(c, lo, hi, absorbed, unseen)
    requires IsMin(lo', absorbed + unseen) && IsMax(hi', absorbed + unseen) && lo' <= lo && hi <= hi'
    ensures Within(cs, lo', hi')
    ensures cs != [] ==> absorbed + unseen != multiset{}
  {
    forall c | c in cs
      ensures lo' <= c.mean <= hi'
    {
      if c.mean in unseen {
        assert c.mean in absorbed + unseen;
      }
    }
    if cs != [] {
      assert cs[0] in cs;
      if absorbed == multiset{} {
        assert cs[0].mean in absorbed + unseen;
      }
    }
  }

  /** The extremes are exact for every absorbed point, and whatever is buffered is explained: it is
      one of the points no merge has seen, or lies between the extremes. */
  ghost predicate Tracks(st: Digest, absorbed: multiset<nat>, unseen: multiset<nat>) {
    && IsMin(st.lo, absorbed) && IsMax(st.hi, absorbed) && st.lo <= UINT_MAX && st.hi <= UINT_MAX
    && UnseenIn(unseen, st.buffered)
    && (forall c :: c in st.buffered ==> Explained(c, st.lo, st.hi, absorbed, unseen))
    && Within(st.active, st.lo, st.hi)
  }

  lemma EndsOfMerge(st: Digest, st': Digest, limit: nat -> real,
                    sorted: seq<Centroid>, cuts: seq<nat>, out: seq<Centroid>)
    returns (low: Centroid, high: Centroid)
    requires MergesBy(st, st', limit, sorted, cuts, out)
    ensures low in st.buffered && high in st.buffered
    ensures forall c :: c in st.buffered ==> low.mean <= c.mean <= high.mean
    ensures st'.lo == LowEnd(st.lo, low) && st'.hi == HighEnd(st.hi, high)
  {
    EndsAreExtreme(sorted, st.buffered);
    low := if st.forward then sorted[0] else sorted[|sorted| - 1];
    high := if st.forward then sorted[|sorted| - 1] else sorted[0];
  }

  lemma NothingUnseen(unseen: multiset<nat>)
    requires UnseenIn(unseen, [])
    ensures unseen == multiset{}
  {
    if p :| p in unseen {
      assert false;
    }
  }

  /** After a merge the extremes are exact for every point there is, whichever way it ran. */
  lemma MergeTracks(st: Digest, st': Digest, limit: nat -> real, absorbed: multiset<nat>, unseen: multiset<nat>)
    requires WellFormed(st) && Tracks(st, absorbed, unseen) && MergesTo(st, st', limit)
    ensures Tracks(st', absorbed + unseen, multiset{})
    ensures st'.lo <= st.lo && st.hi <= st'.hi
  {
    if st.buffered == [] {
      NothingUnseen(unseen);
    } else {
      var sorted, cuts, out :| MergesBy(st, st', limit, sorted, cuts, out);
      var low, high := EndsOfMerge(st, st', limit, sorted, cuts, out);
      LowestIsEnough(st.buffered, low, st.lo, st.hi, absorbed, unseen);
      HighestIsEnough(st.buffered, high, st.lo, st.hi, absorbed, unseen);
      AllWithinExtremes(st.buffered, st.lo, st.hi, st'.lo, st'.hi, absorbed, unseen);
      MergeInHull(st.buffered, st.forward, limit, sorted, cuts, out, st'.active, st'.lo, st'.hi);
    }
  }

  lemma PointTracks(st: Digest, value: nat, absorbed: multiset<nat>, unseen: multiset<nat>)
    requires Tracks(st, absorbed, unseen) && value <= UINT_MAX
    ensures Tracks(st.(buffered := st.buffered + [Centroid(value, 1)]), absorbed, unseen + multiset{value})
  {
    var more, longer := unseen + multiset{value}, st.buffered + [Centroid(value, 1)];
    assert longer[|st.buffered|] == Centroid(value, 1);
    forall c | c in longer
      ensures Explained(c, st.lo, st.hi, absorbed, more)
    {
      assert c in st.buffered || c == Centroid(value, 1);
    }
  }

  lemma HullTracks(st: Digest, c: Centroid, absorbed: multiset<nat>, unseen: multiset<nat>)
    requires Tracks(st, absorbed, unseen) && absorbed != multiset{} && st.lo <= c.mean <= st.hi
    ensures Tracks(st.(buffered := st.buffered + [c]), absorbed, unseen)
  {
    forall d | d in st.buffered + [c]
      ensures Explained(d, st.lo, st.hi, absorbed, unseen)
    {
      assert d in st.buffered || d == c;
    }
  }

  lemma LastFed(st: Digest, cs: seq<Centroid>, st': Digest, tapered: bool)
    returns (mid: Digest, full: bool, limit: nat -> real)
    requires cs != [] && Sound(cs) && FedTo(st, cs, st', tapered)
    ensures var c := cs[|cs| - 1];
            && FedTo(st, cs[..|cs| - 1], mid, tapered) && InsertsTo(mid, c, full, limit, st')
            && Permits(tapered, limit, Weight(mid.buffered) + c.weight)
            && Sound([c]) && Sound(cs[..|cs| - 1])
  {
    var front, c := cs[..|cs| - 1], cs[|cs| - 1];
    assert c in cs;
    mid, full, limit :| FedTo(st, front, mid, tapered) && InsertsTo(mid, c, full, limit, st')
                        && Permits(tapered, limit, Weight(mid.buffered) + c.weight);
  }

  lemma {:induction false} FeedKeeps(st: Digest, cs: seq<Centroid>, st': Digest, tapered: bool)
    requires WellFormed(st) && Sound(cs) && FedTo(st, cs, st', tapered)
    ensures WellFormed(st') && Weight(st'.buffered) == Weight(st.buffered) + Weight(cs)
    decreases |cs|
  {
    if cs == [] {
    } else {
      var front, c := cs[..|cs| - 1], cs[|cs| - 1];
      assert c in cs;
      var mid, full, limit :| FedTo(st, front, mid, tapered) && InsertsTo(mid, c, full, limit, st');
      FeedKeeps(st, front, mid, tapered);
      InsertKeeps(mid, c, full, limit, st');
    }
  }

  lemma HullInsertTracks(st: Digest, c: Centroid, full: bool, limit: nat -> real, st': Digest,
                         absorbed: multiset<nat>, unseen: multiset<nat>)
    returns (absorbed': multiset<nat>, unseen': multiset<nat>)
    requires WellFormed(st) && Tracks(st, absorbed, unseen) && Sound([c])
    requires absorbed != multiset{} && st.lo <= c.mean <= st.hi && InsertsTo(st, c, full, limit, st')
    ensures st'.lo <= st.lo && st.hi <= st'.hi && absorbed <= absorbed'
    ensures Tracks(st', absorbed', unseen') && absorbed' + unseen' == absorbed + unseen
  {
    HullTracks(st, c, absorbed, unseen);
    absorbed', unseen' := absorbed, unseen;
    if full {
      var mid := st.(buffered := st.buffered + [c]);
      InsertKeeps(st, c, false, limit, mid);
      MergeTracks(mid, st', limit, absorbed, unseen);
      absorbed', unseen' := absorbed + unseen, multiset{};
    }
  }

  /** Feeding centroids that lie between the extremes keeps track of the points. */
  lemma {:induction false} FeedTracks(st: Digest, cs: seq<Centroid>, st': Digest, tapered: bool,
                                      absorbed: multiset<nat>, unseen: multiset<nat>)
    returns (absorbed': multiset<nat>, unseen': multiset<nat>)
    requires WellFormed(st) && Tracks(st, absorbed, unseen) && (cs != [] ==> absorbed != multiset{})
    requires Sound(cs) && Within(cs, st.lo, st.hi) && FedTo(st, cs, st', tapered)
    ensures st'.lo <= st.lo && st.hi <= st'.hi && absorbed <= absorbed'
    ensures Tracks(st', absorbed', unseen') && absorbed' + unseen' == absorbed + unseen
    decreases |cs|
  {
    absorbed', unseen' := absorbed, unseen;
    if cs == [] {
    } else {
      var front, c := cs[..|cs| - 1], cs[|cs| - 1];
      assert c in cs;
      var mid, full, limit :| FedTo(st, front, mid, tapered) && InsertsTo(mid, c, full, limit, st');
      absorbed', unseen' := FeedTracks(st, front, mid, tapered, absorbed, unseen);
      FeedKeeps(st, front, mid, tapered);
      absorbed', unseen' := HullInsertTracks(mid, c, full, limit, st', absorbed', unseen');
    }
  }

  lemma WidenedTracks(st: Digest, src: Digest, absorbed: multiset<nat>, unseen: multiset<nat>,
                      absorbed': multiset<nat>, unseen': multiset<nat>)
    requires Tracks(st, absorbed, unseen) && Tracks(src, absorbed', unseen')
    ensures Tracks(Widened(st, src), absorbed + absorbed', unseen)
  {
  }

  lemma SourceInside(st: Digest, src: Digest, points: multiset<nat>, pending: multiset<nat>)
    requires WellFormed(src) && Tracks(src, points, pending)
    ensures Sound(src.active) && Within(src.active, Widened(st, src).lo, Widened(st, src).hi)
    ensures src.active != [] ==> points != multiset{}
  {
    if src.active != [] {
      assert src.active[0] in src.active;
    }
    assert forall c :: c in src.active ==> c in src.buffered;
  }

  lemma AbsorbPath(st: Digest, src: Digest, st': Digest, tapered: bool) returns (mid: Digest, limit: nat -> real)
    requires AbsorbsTo(st, src, st', tapered)
    ensures FedTo(Widened(st, src), src.active, mid, tapered) && MergesTo(mid, st', limit)
    ensures Permits(tapered, limit, Weight(mid.buffered))
  {
    mid, limit :| FedTo(Widened(st, src), src.active, mid, tapered) && MergesTo(mid, st', limit)
        && Permits(tapered, limit, Weight(mid.buffered));
  }

  /** What the centroids of another digest leave behind before the last merge. */
  lemma FedDigestTracks(st: Digest, src: Digest, mid: Digest, tapered: bool, absorbed: multiset<nat>,
                        unseen: multiset<nat>,
                        points: multiset<nat>, pending: multiset<nat>)
    returns (absorbed': multiset<nat>, unseen': multiset<nat>)
    requires WellFormed(st) && Tracks(st, absorbed, unseen) && WellFormed(src) && Tracks(src, points, pending)
    requires FedTo(Widened(st, src), src.active, mid, tapered)
    ensures Tracks(mid, absorbed', unseen') && absorbed' + unseen' == absorbed + unseen + points
  {
    WidenedTracks(st, src, absorbed, unseen, points, pending);
    SourceInside(st, src, points, pending);
    absorbed', unseen' := FeedTracks(Widened(st, src), src.active, mid, tapered, absorbed + points, unseen);
  }

  lemma FedDigestKeeps(st: Digest, src: Digest, mid: Digest, tapered: bool)
    requires WellFormed(st) && WellFormed(src) && FedTo(Widened(st, src), src.active, mid, tapered)
    ensures WellFormed(mid) && Weight(mid.buffered) == Weight(st.buffered) + Weight(src.active)
  {
    assert Sound(src.active);
    FeedKeeps(Widened(st, src), src.active, mid, tapered);
  }

  /** A digest inserted into another: the points of both, each exactly once, merged. */
  lemma AbsorbTracks(st: Digest, src: Digest, st': Digest, tapered: bool, absorbed: multiset<nat>,
                     unseen: multiset<nat>,
                     points: multiset<nat>, pending: multiset<nat>)
    requires WellFormed(st) && Tracks(st, absorbed, unseen)
    requires WellFormed(src) && Tracks(src, points, pending) && AbsorbsTo(st, src, st', tapered)
    ensures Tracks(st', absorbed + unseen + points, multiset{})
  {
    var mid, limit := AbsorbPath(st, src, st', tapered);
    FedDigestKeeps(st, src, mid, tapered);
    var absorbed', unseen' := FedDigestTracks(st, src, mid, tapered, absorbed, unseen, points, pending);
    MergeTracks(mid, st', limit, absorbed', unseen');
  }

  lemma AbsorbKeeps(st: Digest, src: Digest, st': Digest, tapered: bool)
    requires WellFormed(st) && WellFormed(src) && AbsorbsTo(st, src, st', tapered)
    ensures WellFormed(st') && st'.buffered == st'.active
    ensures Weight(st'.active) == Weight(st.buffered) + Weight(src.active)
  {
    var mid, limit := AbsorbPath(st, src, st', tapered);
    FedDigestKeeps(st, src, mid, tapered);
    MergeKeeps(mid, st', limit);
  }
}
