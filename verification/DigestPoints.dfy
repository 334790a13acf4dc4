/** The points behind a digest, counted: those its merges have absorbed and those still pending. */
module DigestPoints {
  import opened Arithmetic
  import opened Centroids
  import opened Clustering
  import opened Merging
  import opened Digests

  ghost function PointsOf(cs: seq<Centroid>): multiset<nat> {
    if cs == [] then multiset{} else PointsOf(cs[..|cs| - 1]) + multiset{cs[|cs| - 1].mean}
  }

  ghost predicate Single(cs: seq<Centroid>) {
    forall c :: c in cs ==> c.weight == 1
  }

  ghost function Pending(st: Digest): seq<Centroid>
    requires st.active <= st.buffered
  {
    st.buffered[|st.active|..]
  }

  /** The centroids of weight one are among the points. */
  ghost predicate LightIn(cs: seq<Centroid>, points: multiset<nat>) {
    forall c :: c in cs && c.weight == 1 ==> c.mean in points
  }

  /** Every point is accounted for exactly once: the pending centroids are the unseen points, one
      each, and the active digest weighs as much as there are absorbed points, among which are all its
      centroids of weight one. */
  ghost predicate Accounts(st: Digest, absorbed: multiset<nat>, unseen: multiset<nat>) {
    && Tracks(st, absorbed, unseen)
    && st.active <= st.buffered
    && Single(Pending(st)) && PointsOf(Pending(st)) == unseen
    && Weight(st.active) == |absorbed|
    && LightIn(st.active, absorbed)
  }

  lemma {:induction false} PointsWeigh(cs: seq<Centroid>)
    requires Single(cs)
    ensures |PointsOf(cs)| == Weight(cs)
  {
    if cs == [] {
    } else {
      assert cs[|cs| - 1] in cs;
      PointsWeigh(cs[..|cs| - 1]);
    }
  }

  lemma {:induction false} PointsCount(cs: seq<Centroid>, m: nat)
    requires Single(cs)
    ensures PointsOf(cs)[m] == multiset(cs)[Centroid(m, 1)]
  {
    if cs == [] {
    } else {
      var n := |cs| - 1;
      assert cs[n] in cs;
      PointsCount(cs[..n], m);
      assert cs == cs[..n] + [cs[n]];
    }
  }

  lemma BufferWeighs(st: Digest, absorbed: multiset<nat>, unseen: multiset<nat>)
    requires Accounts(st, absorbed, unseen)
    ensures Weight(st.buffered) == |absorbed + unseen|
  {
    PointsWeigh(Pending(st));
    assert st.buffered == st.active + Pending(st);
    SumsOfConcat(st.active, Pending(st));
  }

  lemma NothingPending(st: Digest)
    requires st.buffered == st.active
    ensures Single(Pending(st)) && PointsOf(Pending(st)) == multiset{}
  {
  }

  // --- Centroids of weight one -------------------------------------------------------------------

  lemma MergeLight(st: Digest, st': Digest, limit: nat -> real, points: multiset<nat>)
    requires WellFormed(st) && MergesTo(st, st', limit) && LightIn(st.buffered, points)
    ensures LightIn(st'.buffered, points)
  {
    if st.buffered != [] {
      var sorted, cuts, out :| MergesBy(st, st', limit, sorted, cuts, out);
      MergeKeepsLight(st.buffered, st.forward, limit, sorted, cuts, out, st'.active);
    }
  }

  lemma InsertLight(st: Digest, c: Centroid, full: bool, limit: nat -> real, st': Digest, points: multiset<nat>)
    requires WellFormed(st) && Sound([c]) && InsertsTo(st, c, full, limit, st')
    requires LightIn(st.buffered, points) && (c.weight == 1 ==> c.mean in points)
    ensures LightIn(st'.buffered, points)
  {
    var mid := st.(buffered := st.buffered + [c]);
    InsertKeeps(st, c, false, limit, mid);
    assert forall d :: d in mid.buffered ==> d in st.buffered || d == c;
    if full {
      MergeLight(mid, st', limit, points);
    }
  }

  lemma {:induction false} FeedLight(st: Digest, cs: seq<Centroid>, st': Digest, tapered: bool, points: multiset<nat>)
    requires WellFormed(st) && Sound(cs) && FedTo(st, cs, st', tapered)
    requires LightIn(st.buffered, points) && LightIn(cs, points)
    ensures LightIn(st'.buffered, points)
    decreases |cs|
  {
    if cs == [] {
    } else {
      var front, c := cs[..|cs| - 1], cs[|cs| - 1];
      assert c in cs;
      var mid, full, limit := LastFed(st, cs, st', tapered);
      FeedLight(st, front, mid, tapered, points);
      FeedKeeps(st, front, mid, tapered);
      InsertLight(mid, c, full, limit, st', points);
    }
  }

  lemma PendingLight(cs: seq<Centroid>)
    requires Single(cs)
    ensures LightIn(cs, PointsOf(cs))
  {
    forall c | c in cs
      ensures c.mean in PointsOf(cs)
    {
      PointsCount(cs, c.mean);
      assert c == Centroid(c.mean, 1) && multiset(cs)[c] > 0;
    }
  }

  lemma BufferLight(st: Digest, absorbed: multiset<nat>, unseen: multiset<nat>)
    requires Accounts(st, absorbed, unseen)
    ensures LightIn(st.buffered, absorbed + unseen)
  {
    PendingLight(Pending(st));
    assert st.buffered == st.active + Pending(st);
  }

  lemma FedDigestLight(st: Digest, src: Digest, mid: Digest, tapered: bool, points: multiset<nat>)
    requires WellFormed(st) && WellFormed(src) && FedTo(Widened(st, src), src.active, mid, tapered)
    requires LightIn(st.buffered, points) && LightIn(src.active, points)
    ensures LightIn(mid.buffered, points)
  {
    assert Sound(src.active);
    FeedLight(Widened(st, src), src.active, mid, tapered, points);
  }

  lemma AbsorbLight(st: Digest, src: Digest, st': Digest, tapered: bool, points: multiset<nat>)
    requires WellFormed(st) && WellFormed(src) && AbsorbsTo(st, src, st', tapered)
    requires LightIn(st.buffered, points) && LightIn(src.active, points)
    ensures LightIn(st'.buffered, points)
  {
    var mid, limit := AbsorbPath(st, src, st', tapered);
    FedDigestKeeps(st, src, mid, tapered);
    FedDigestLight(st, src, mid, tapered, points);
    MergeLight(mid, st', limit, points);
  }

  // --- Steps -------------------------------------------------------------------------------------

  lemma MergeAccounts(st: Digest, st': Digest, limit: nat -> real, absorbed: multiset<nat>, unseen: multiset<nat>)
    requires WellFormed(st) && Accounts(st, absorbed, unseen) && MergesTo(st, st', limit)
    ensures Accounts(st', absorbed + unseen, multiset{})
  {
    BufferWeighs(st, absorbed, unseen);
    BufferLight(st, absorbed, unseen);
    MergeLight(st, st', limit, absorbed + unseen);
    MergeTracks(st, st', limit, absorbed, unseen);
    MergeKeeps(st, st', limit);
    NothingPending(st');
  }

  lemma PointAccounts(st: Digest, value: nat, absorbed: multiset<nat>, unseen: multiset<nat>)
    requires Accounts(st, absorbed, unseen) && value <= UINT_MAX
    ensures Accounts(st.(buffered := st.buffered + [Centroid(value, 1)]), absorbed, unseen + multiset{value})
  {
    var mid := st.(buffered := st.buffered + [Centroid(value, 1)]);
    PointTracks(st, value, absorbed, unseen);
    assert Pending(mid) == Pending(st) + [Centroid(value, 1)];
    assert Pending(mid)[..|Pending(mid)| - 1] == Pending(st);
  }

  lemma InsertAccounts(st: Digest, value: nat, full: bool, limit: nat -> real, st': Digest,
                       absorbed: multiset<nat>, unseen: multiset<nat>)
    returns (absorbed': multiset<nat>, unseen': multiset<nat>)
    requires WellFormed(st) && Accounts(st, absorbed, unseen) && value <= UINT_MAX
    requires InsertsTo(st, Centroid(value, 1), full, limit, st')
    ensures Accounts(st', absorbed', unseen') && absorbed' + unseen' == absorbed + unseen + multiset{value}
    ensures absorbed' == if full then absorbed + (unseen + multiset{value}) else absorbed
    ensures full ==> unseen' == multiset{}
  {
    PointAccounts(st, value, absorbed, unseen);
    absorbed', unseen' := absorbed, unseen + multiset{value};
    if full {
      var mid := st.(buffered := st.buffered + [Centroid(value, 1)]);
      InsertKeeps(st, Centroid(value, 1), false, limit, mid);
      MergeAccounts(mid, st', limit, absorbed', unseen');
      absorbed', unseen' := absorbed' + unseen', multiset{};
    }
  }

  lemma AbsorbAccounts(st: Digest, src: Digest, st': Digest, tapered: bool, absorbed: multiset<nat>,
                       unseen: multiset<nat>,
                       points: multiset<nat>, pending: multiset<nat>)
    requires WellFormed(st) && Accounts(st, absorbed, unseen)
    requires WellFormed(src) && Accounts(src, points, pending) && AbsorbsTo(st, src, st', tapered)
    ensures Accounts(st', absorbed + unseen + points, multiset{})
  {
    BufferWeighs(st, absorbed, unseen);
    BufferLight(st, absorbed, unseen);
    AbsorbLight(st, src, st', tapered, absorbed + unseen + points);
    AbsorbTracks(st, src, st', tapered, absorbed, unseen, points, pending);
    AbsorbKeeps(st, src, st', tapered);
    NothingPending(st');
  }
}
