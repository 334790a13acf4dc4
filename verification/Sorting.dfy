/** What the library sort promises: some ordered rearrangement of its input. Ties may land in any
    order, so no proof below depends on more than this contract. */
module Sorting {

  ghost predicate SortedBy<T>(s: seq<T>, key: T -> int) {
    forall i, j :: 0 <= i < j < |s| ==> key(s[i]) <= key(s[j])
  }

  ghost function Inserted<T>(s: seq<T>, p: nat, x: T): seq<T>
    requires p <= |s|
  {
    s[..p] + [x] + s[p..]
  }

  lemma InsertedElements<T>(s: seq<T>, p: nat, x: T)
    requires p <= |s|
    ensures multiset(Inserted(s, p, x)) == multiset(s) + multiset{x}
  {
    assert s == s[..p] + s[p..];
  }

  lemma InsertedInOrder<T>(s: seq<T>, p: nat, x: T, key: T -> int)
    requires p <= |s| && SortedBy(s, key)
    requires p == 0 || key(s[p - 1]) <= key(x)
    requires p == |s| || key(x) <= key(s[p])
    ensures SortedBy(Inserted(s, p, x), key)
  {
    var r := Inserted(s, p, x);
    forall i, j | 0 <= i < j < |r|
      ensures key(r[i]) <= key(r[j])
    {
      var a, b := if i <= p then i else i - 1, if j <= p then j else j - 1;
      assert i < p ==> r[i] == s[a];
      assert i > p ==> r[i] == s[a];
      assert j < p ==> r[j] == s[b];
      assert j > p ==> r[j] == s[b];
    }
  }

  method InsertBy<T>(s: seq<T>, x: T, key: T -> int) returns (r: seq<T>)
    requires SortedBy(s, key)
    ensures multiset(r) == multiset(s) + multiset{x}
    ensures SortedBy(r, key)
  {
    var p := 0;
    while p < |s| && key(s[p]) <= key(x)
      invariant p <= |s|
      invariant p == 0 || key(s[p - 1]) <= key(x)
    {
      p := p + 1;
    }
    InsertedElements(s, p, x);
    InsertedInOrder(s, p, x, key);
    r := s[..p] + [x] + s[p..];
  }

  method SortBy<T>(s: seq<T>, key: T -> int) returns (r: seq<T>)
    ensures multiset(r) == multiset(s)
    ensures SortedBy(r, key)
  {
    r := [];
    for n := 0 to |s|
      invariant multiset(r) == multiset(s[..n])
      invariant SortedBy(r, key)
    {
      assert s[..n + 1] == s[..n] + [s[n]];
      r := InsertBy(r, s[n], key);
    }
    assert s[..|s|] == s;
  }

  /** A rearrangement has the same length and the same elements. */
  lemma Rearranged<T>(a: seq<T>, b: seq<T>)
    requires multiset(a) == multiset(b)
    ensures |a| == |b|
    ensures forall x :: x in a <==> x in b
  {
    assert |multiset(a)| == |multiset(b)|;
    forall x
      ensures x in a <==> x in b
    {
      assert x in multiset(a) <==> x in multiset(b);
    }
  }

  function Without<T>(s: seq<T>, i: nat): seq<T>
    requires i < |s|
  {
    s[..i] + s[i + 1..]
  }

  lemma SplitAt<T>(s: seq<T>, i: nat)
    requires i < |s|
    ensures s == s[..i] + [s[i]] + s[i + 1..]
  {
  }

  lemma WithoutOne<T>(s: seq<T>, i: nat)
    requires i < |s|
    ensures multiset(Without(s, i)) == multiset(s) - multiset{s[i]}
  {
    SplitAt(s, i);
  }
}
