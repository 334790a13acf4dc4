/** What a tapered limit adds when the maximum is attained once: it stays a centroid of its own, so the
    last centroid is a single point. */
module DigestTops {
  import opened Arithmetic
  import opened Sorting
  import opened Centroids
  import opened Clustering
  import opened Merging
  import opened Digests
  import opened DigestPoints
  import opened DigestEnds

  /** A point m occurs k times, and everything else lies below it. */
  ghost predicate Tops(cs: seq<Centroid>, m: nat, k: nat) {
    && multiset(cs)[Centroid(m, 1)] == k
    && forall c :: c in cs ==> c == Centroid(m, 1) || c.mean < m
  }

  ghost predicate OnlyAt(cs: seq<Centroid>, j: nat, m: nat) {
    j < |cs| && cs[j] == Centroid(m, 1) && forall i :: 0 <= i < |cs| && i != j ==> cs[i].mean < m
  }

  lemma WithoutIn<T>(s: seq<T>, j: nat, i: nat)
    requires j < |s| && i < |s| && i != j
    ensures s[i] in Without(s, j)
  {
    var rest := Without(s, j);
    assert rest[if i < j then i else i - 1] == s[i];
  }

  lemma TopsOnce(cs: seq<Centroid>, m: nat) returns (j: nat)
    requires Tops(cs, m, 1)
    ensures OnlyAt(cs, j, m)
  {
    assert Centroid(m, 1) in cs;
    j :| 0 <= j < |cs| && cs[j] == Centroid(m, 1);
    WithoutOne(cs, j);
    forall i | 0 <= i < |cs| && i != j
      ensures cs[i].mean < m
    {
      WithoutIn(cs, j, i);
      assert multiset(Without(cs, j))[cs[i]] > 0;
    }
  }

  lemma OnceTops(cs: seq<Centroid>, j: nat, m: nat)
    requires OnlyAt(cs, j, m)
    ensures Tops(cs, m, 1)
  {
    WithoutOne(cs, j);
    forall c | c in Without(cs, j)
      ensures c.mean < m
    {
    }
    assert Centroid(m, 1) !in multiset(Without(cs, j));
  }

  lemma TopsNone(cs: seq<Centroid>, m: nat)
    requires forall c :: c in cs ==> c.mean < m
    ensures Tops(cs, m, 0)
  {
    assert Centroid(m, 1) !in cs;
  }

  // --- One pass ----------------------------------------------------------------------------------

  lemma TopOfAscendingPass(s: seq<Centroid>, cuts: seq<nat>, out: seq<Centroid>, limit: nat -> real, m: nat)
    requires Sound(s) && IsClustering(s, cuts, out, limit) && Tapered(limit, Weight(s)) && Ascending(s)
    requires Tops(s, m, 1)
    ensures Tops(out, m, 1)
  {
    var j := TopsOnce(s, m);
    EndsStandAlone(s, cuts, out, limit);
    assert j == |s| - 1;
    forall i | 0 <= i < |out| - 1
      ensures out[i].mean < m
    {
      MeanBetweenEnds(s, cuts, out, i);
      assert cuts[i + 1] < cuts[|cuts| - 1];
    }
    OnceTops(out, |out| - 1, m);
  }

  lemma TopOfDescendingPass(s: seq<Centroid>, cuts: seq<nat>, out: seq<Centroid>, limit: nat -> real, m: nat)
    requires Sound(s) && IsClustering(s, cuts, out, limit) && Tapered(limit, Weight(s)) && Descending(s)
    requires Tops(s, m, 1)
    ensures Tops(out, m, 1)
  {
    var j := TopsOnce(s, m);
    EndsStandAlone(s, cuts, out, limit);
    assert j == 0;
    forall i | 0 < i < |out|
      ensures out[i].mean < m
    {
      MeanBetweenEnds(s, cuts, out, i);
      assert cuts[0] < cuts[i];
    }
    OnceTops(out, 0, m);
  }

  lemma SameTops(a: seq<Centroid>, b: seq<Centroid>, m: nat, k: nat)
    requires multiset(a) == multiset(b) && Tops(a, m, k)
    ensures Tops(b, m, k)
  {
    Rearranged(a, b);
  }

  lemma PassKeepsTop(input: seq<Centroid>, forward: bool, limit: nat -> real,
                     sorted: seq<Centroid>, cuts: seq<nat>, out: seq<Centroid>, result: seq<Centroid>, m: nat)
    requires Sound(input) && IsMergeOf(input, forward, limit, sorted, cuts, out, result)
    requires Tapered(limit, Weight(input)) && Tops(input, m, 1)
    ensures Tops(result, m, 1)
  {
    SoundRearranged(input, sorted);
    SumsOfRearranged(sorted, input);
    SameTops(input, sorted, m, 1);
    if forward {
      TopOfAscendingPass(sorted, cuts, out, limit, m);
    } else {
      TopOfDescendingPass(sorted, cuts, out, limit, m);
    }
    SameTops(out, result, m, 1);
  }

  lemma MergeStaysBelow(input: seq<Centroid>, forward: bool, limit: nat -> real,
                        sorted: seq<Centroid>, cuts: seq<nat>, out: seq<Centroid>, result: seq<Centroid>, m: nat)
    requires Sound(input) && input != [] && IsMergeOf(input, forward, limit, sorted, cuts, out, result)
    requires Tops(input, m, 0)
    ensures Tops(result, m, 0)
  {
    assert forall c :: c in input ==> c in multiset(input);
    assert input[0] in input && Within(input, 0, m - 1);
    MergeInHull(input, forward, limit, sorted, cuts, out, result, 0, m - 1);
    TopsNone(result, m);
  }

  lemma MergeKeepsTops(st: Digest, st': Digest, limit: nat -> real, m: nat, k: nat)
    requires WellFormed(st) && MergesTo(st, st', limit) && Permits(true, limit, Weight(st.buffered))
    requires k <= 1 && Tops(st.buffered, m, k)
    ensures Tops(st'.buffered, m, k)
  {
    if st.buffered != [] {
      var sorted, cuts, out :| MergesBy(st, st', limit, sorted, cuts, out);
      WeightIsPositive(st.buffered);
      if k == 1 {
        PassKeepsTop(st.buffered, st.forward, limit, sorted, cuts, out, st'.active, m);
      } else {
        MergeStaysBelow(st.buffered, st.forward, limit, sorted, cuts, out, st'.active, m);
      }
    }
  }

  // --- Feeding -----------------------------------------------------------------------------------

  lemma TopsOfConcat(a: seq<Centroid>, b: seq<Centroid>, m: nat, k: nat, l: nat)
    requires Tops(a, m, k) && Tops(b, m, l)
    ensures Tops(a + b, m, k + l)
  {
    assert forall c :: c in a + b ==> c in a || c in b;
  }

  lemma TopsOfParts(cs: seq<Centroid>, m: nat, k: nat) returns (l: nat)
    requires cs != [] && Tops(cs, m, k)
    ensures l <= 1 && l <= k && Tops(cs[..|cs| - 1], m, k - l) && Tops([cs[|cs| - 1]], m, l)
  {
    var front, c := cs[..|cs| - 1], cs[|cs| - 1];
    assert cs == front + [c];
    assert c in cs;
    l := if c == Centroid(m, 1) then 1 else 0;
    assert multiset(cs) == multiset(front) + multiset([c]);
    assert forall d :: d in front ==> d in cs;
  }

  lemma InsertKeepsTops(st: Digest, c: Centroid, full: bool, limit: nat -> real, st': Digest, m: nat, k: nat, l: nat)
    requires WellFormed(st) && Sound([c]) && InsertsTo(st, c, full, limit, st')
    requires Permits(true, limit, Weight(st.buffered) + c.weight)
    requires Tops(st.buffered, m, k) && Tops([c], m, l) && k + l <= 1
    ensures Tops(st'.buffered, m, k + l)
  {
    var mid := st.(buffered := st.buffered + [c]);
    InsertKeeps(st, c, false, limit, mid);
    TopsOfConcat(st.buffered, [c], m, k, l);
    if full {
      MergeKeepsTops(mid, st', limit, m, k + l);
    }
  }

  lemma {:induction false} FeedKeepsTops(st: Digest, cs: seq<Centroid>, st': Digest, m: nat, k: nat, l: nat)
    requires WellFormed(st) && Sound(cs) && FedTo(st, cs, st', true)
    requires Tops(st.buffered, m, k) && Tops(cs, m, l) && k + l <= 1
    ensures Tops(st'.buffered, m, k + l)
    decreases |cs|
  {
    if cs == [] {
    } else {
      var front, c := cs[..|cs| - 1], cs[|cs| - 1];
      var mid, full, limit := LastFed(st, cs, st', true);
      var h := TopsOfParts(cs, m, l);
      FeedKeepsTops(st, front, mid, m, k, l - h);
      FeedKeeps(st, front, mid, true);
      InsertKeepsTops(mid, c, full, limit, st', m, k + (l - h), h);
    }
  }

  // --- Points ------------------------------------------------------------------------------------

  /** A maximum that occurs once among these points. */
  ghost predicate IsSoleMax(m: nat, points: multiset<nat>) {
    IsMax(m, points) && points[m] == 1
  }

  /** If the absorbed points attain their maximum once, it is a centroid of its own. */
  ghost predicate Crowned(st: Digest, absorbed: multiset<nat>) {
    forall m :: IsSoleMax(m, absorbed) ==> Tops(st.active, m, 1)
  }

  lemma ActiveBelow(st: Digest, absorbed: multiset<nat>, unseen: multiset<nat>, m: nat)
    requires Tracks(st, absorbed, unseen) && WellFormed(st) && (st.active != [] ==> absorbed != multiset{})
    requires forall p :: p in absorbed ==> p < m
    ensures Tops(st.active, m, 0)
  {
    TopsNone(st.active, m);
  }

  lemma PendingTops(cs: seq<Centroid>, m: nat)
    requires Single(cs) && forall p :: p in PointsOf(cs) ==> p <= m
    ensures Tops(cs, m, PointsOf(cs)[m])
  {
    PointsCount(cs, m);
    forall c | c in cs
      ensures c == Centroid(m, 1) || c.mean < m
    {
      PointsCount(cs, c.mean);
      assert c == Centroid(c.mean, 1) && multiset(cs)[c] > 0;
      assert c.mean in PointsOf(cs);
    }
  }

  lemma ActiveHasPoints(st: Digest, absorbed: multiset<nat>, unseen: multiset<nat>)
    requires WellFormed(st) && Accounts(st, absorbed, unseen)
    ensures st.active != [] ==> absorbed != multiset{}
  {
    WeightIsPositive(st.active);
  }

  lemma ActiveTops(st: Digest, absorbed: multiset<nat>, unseen: multiset<nat>, m: nat)
    requires WellFormed(st) && Accounts(st, absorbed, unseen) && Crowned(st, absorbed)
    requires absorbed[m] <= 1 && forall p :: p in absorbed ==> p <= m
    ensures Tops(st.active, m, absorbed[m])
  {
    ActiveHasPoints(st, absorbed, unseen);
    if absorbed[m] == 1 {
      assert IsSoleMax(m, absorbed);
    } else {
      ActiveBelow(st, absorbed, unseen, m);
    }
  }

  lemma Parts(a: multiset<nat>, b: multiset<nat>, m: nat)
    requires forall p :: p in a + b ==> p <= m
    ensures (a + b)[m] == a[m] + b[m]
    ensures (forall p :: p in a ==> p <= m) && (forall p :: p in b ==> p <= m)
  {
    assert forall p :: p in a || p in b ==> p in a + b;
  }

  lemma BufferTops(st: Digest, absorbed: multiset<nat>, unseen: multiset<nat>, m: nat)
    requires WellFormed(st) && Accounts(st, absorbed, unseen) && Crowned(st, absorbed)
    requires (absorbed + unseen)[m] <= 1 && forall p :: p in absorbed + unseen ==> p <= m
    ensures Tops(st.buffered, m, (absorbed + unseen)[m])
  {
    Parts(absorbed, unseen, m);
    ActiveTops(st, absorbed, unseen, m);
    PendingTops(Pending(st), m);
    TopsOfConcat(st.active, Pending(st), m, absorbed[m], unseen[m]);
    assert st.buffered == st.active + Pending(st);
  }

  lemma MergeCrowns(st: Digest, st': Digest, limit: nat -> real, absorbed: multiset<nat>, unseen: multiset<nat>)
    requires WellFormed(st) && Accounts(st, absorbed, unseen) && Crowned(st, absorbed)
    requires MergesTo(st, st', limit) && Permits(true, limit, Weight(st.buffered))
    ensures Crowned(st', absorbed + unseen)
  {
    MergeKeeps(st, st', limit);
    forall m | IsSoleMax(m, absorbed + unseen)
      ensures Tops(st'.active, m, 1)
    {
      BufferTops(st, absorbed, unseen, m);
      MergeKeepsTops(st, st', limit, m, 1);
    }
  }

  lemma FedTops(st: Digest, src: Digest, mid: Digest, absorbed: multiset<nat>, unseen: multiset<nat>,
                points: multiset<nat>, pending: multiset<nat>, m: nat)
    requires WellFormed(st) && Accounts(st, absorbed, unseen) && Crowned(st, absorbed)
    requires WellFormed(src) && Accounts(src, points, pending) && Crowned(src, points)
    requires FedTo(Widened(st, src), src.active, mid, true) && IsSoleMax(m, absorbed + unseen + points)
    ensures Tops(mid.buffered, m, 1)
  {
    assert forall p :: p in absorbed + unseen || p in points ==> p in absorbed + unseen + points;
    BufferTops(st, absorbed, unseen, m);
    ActiveTops(src, points, pending, m);
    assert Sound(src.active);
    FeedKeepsTops(Widened(st, src), src.active, mid, m, (absorbed + unseen)[m], points[m]);
  }

  lemma AbsorbCrowns(st: Digest, src: Digest, st': Digest, absorbed: multiset<nat>, unseen: multiset<nat>,
                     points: multiset<nat>, pending: multiset<nat>)
    requires WellFormed(st) && Accounts(st, absorbed, unseen) && Crowned(st, absorbed)
    requires WellFormed(src) && Accounts(src, points, pending) && Crowned(src, points)
    requires AbsorbsTo(st, src, st', true)
    ensures Crowned(st', absorbed + unseen + points)
  {
    var mid, limit := AbsorbPath(st, src, st', true);
    FedDigestKeeps(st, src, mid, true);
    MergeKeeps(mid, st', limit);
    forall m | IsSoleMax(m, absorbed + unseen + points)
      ensures Tops(st'.active, m, 1)
    {
      FedTops(st, src, mid, absorbed, unseen, points, pending, m);
      MergeKeepsTops(mid, st', limit, m, 1);
    }
  }

  lemma LastIsTop(cs: seq<Centroid>, m: nat)
    requires Ascending(cs) && Tops(cs, m, 1)
    ensures cs != [] && cs[|cs| - 1] == Centroid(m, 1)
  {
    var j := TopsOnce(cs, m);
    assert cs[j].mean <= cs[|cs| - 1].mean;
  }
}
