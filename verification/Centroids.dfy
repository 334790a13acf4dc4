/** Weighted points and the sums over them that every digest operation has to respect. */
module Centroids {
  import opened Sorting

  const UINT_MAX: nat := 0xFFFF_FFFF

  datatype Centroid = Centroid(mean: nat, weight: nat)

  ghost function Weight(cs: seq<Centroid>): nat {
    if cs == [] then 0 else Weight(cs[..|cs| - 1]) + cs[|cs| - 1].weight
  }

  /** The sum of mean * weight. */
  ghost function Moment(cs: seq<Centroid>): nat {
    if cs == [] then 0 else Moment(cs[..|cs| - 1]) + cs[|cs| - 1].mean * cs[|cs| - 1].weight
  }

  ghost predicate Ascending(cs: seq<Centroid>) {
    forall i, j :: 0 <= i < j < |cs| ==> cs[i].mean <= cs[j].mean
  }

  ghost predicate Descending(cs: seq<Centroid>) {
    forall i, j :: 0 <= i < j < |cs| ==> cs[i].mean >= cs[j].mean
  }

  ghost predicate Sound(cs: seq<Centroid>) {
    forall c :: c in cs ==> 1 <= c.weight && c.mean <= UINT_MAX
  }

  ghost predicate Within(cs: seq<Centroid>, lo: nat, hi: nat) {
    forall c :: c in cs ==> lo <= c.mean <= hi
  }

  lemma {:induction false} SumsOfConcat(a: seq<Centroid>, b: seq<Centroid>)
    ensures Weight(a + b) == Weight(a) + Weight(b)
    ensures Moment(a + b) == Moment(a) + Moment(b)
  {
    if b == [] {
      assert a + b == a;
    } else {
      SumsOfConcat(a, b[..|b| - 1]);
      assert (a + b)[..|a + b| - 1] == a + b[..|b| - 1];
    }
  }

  lemma SumsOfOne(c: Centroid)
    ensures Weight([c]) == c.weight
    ensures Moment([c]) == c.mean * c.weight
  {
    assert [c][..0] == [];
  }

  lemma SumsOfThree(front: seq<Centroid>, c: Centroid, back: seq<Centroid>)
    ensures Weight(front + [c] + back) == Weight(front + back) + c.weight
    ensures Moment(front + [c] + back) == Moment(front + back) + c.mean * c.weight
  {
    SumsOfConcat(front + [c], back);
    SumsOfConcat(front, [c]);
    SumsOfConcat(front, back);
    SumsOfOne(c);
  }

  lemma SumsAt(a: seq<Centroid>, i: nat)
    requires i < |a|
    ensures Weight(a) == Weight(Without(a, i)) + a[i].weight
    ensures Moment(a) == Moment(Without(a, i)) + a[i].mean * a[i].weight
  {
    SplitAt(a, i);
    SumsOfThree(a[..i], a[i], a[i + 1..]);
  }

  /** Sorting moves weight around but neither creates nor destroys it. */
  lemma {:induction false} SumsOfRearranged(a: seq<Centroid>, b: seq<Centroid>)
    requires multiset(a) == multiset(b)
    ensures Weight(a) == Weight(b)
    ensures Moment(a) == Moment(b)
    decreases |a|
  {
    Rearranged(a, b);
    if a == [] {
    } else {
      var last := a[|a| - 1];
      assert last in b;
      var i :| 0 <= i < |b| && b[i] == last;
      WithoutOne(a, |a| - 1);
      WithoutOne(b, i);
      assert Without(a, |a| - 1) == a[..|a| - 1];
      SumsOfRearranged(a[..|a| - 1], Without(b, i));
      SumsAt(b, i);
    }
  }

  lemma {:induction false} WeightIsPositive(cs: seq<Centroid>)
    requires Sound(cs)
    ensures Weight(cs) >= |cs|
  {
    if cs == [] {
    } else {
      assert cs[|cs| - 1] in cs;
      WeightIsPositive(cs[..|cs| - 1]);
    }
  }

  lemma WeightOfPrefix(cs: seq<Centroid>, i: nat)
    requires i < |cs|
    ensures Weight(cs[..i + 1]) == Weight(cs[..i]) + cs[i].weight <= Weight(cs)
  {
    assert cs[..i + 1][..i] == cs[..i];
    assert cs == cs[..i + 1] + cs[i + 1..];
    SumsOfConcat(cs[..i + 1], cs[i + 1..]);
  }
}
