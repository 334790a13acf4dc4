/** Joining two tables on one column each. The join table is a multimap: equal keys keep the order
    they were inserted in, and a lookup finds the first of them. */
module HashJoin {
  import opened Arithmetic

  type Table = map<nat, seq<nat>>

  function Bucket(table: Table, key: nat): seq<nat> {
    if key in table then table[key] else []
  }

  /** The rows of a column that hold the key, in order. */
  function Matches(column: seq<nat>, key: nat): seq<nat> {
    if column == [] then []
    else
      var n := |column| - 1;
      Matches(column[..n], key) + (if column[n] == key then [n] else [])
  }

  /** How many earlier rows hold the same key. */
  function Rank(column: seq<nat>, row: nat): nat
    requires row < |column|
  {
    |Matches(column[..row], column[row])|
  }

  function PairsOfRow(matches: seq<nat>, b: nat): seq<(nat, nat)> {
    seq(|matches|, i requires 0 <= i < |matches| => (matches[i], b))
  }

  /** The reference: for every row of B in order, every row of A in order. */
  function NestedLoop(columnA: seq<nat>, columnB: seq<nat>): seq<(nat, nat)> {
    if columnB == [] then []
    else
      var n := |columnB| - 1;
      NestedLoop(columnA, columnB[..n]) + PairsOfRow(Matches(columnA, columnB[n]), n)
  }

  /** The one-to-one reference: a row of B takes the A row of the same key and the same rank. */
  function PairOff(columnA: seq<nat>, columnB: seq<nat>): seq<(nat, nat)> {
    if columnB == [] then []
    else
      var n := |columnB| - 1;
      var matches, rank := Matches(columnA, columnB[n]), Rank(columnB, n);
      PairOff(columnA, columnB[..n]) + (if rank < |matches| then [(matches[rank], n)] else [])
  }

  // --- Matches -----------------------------------------------------------------------------------

  lemma {:induction false} MatchesAreRows(column: seq<nat>, key: nat)
    ensures |Matches(column, key)| <= |column|
    ensures forall i :: 0 <= i < |Matches(column, key)| ==>
              && Matches(column, key)[i] < |column|
              && column[Matches(column, key)[i]] == key
    ensures forall i, j :: 0 <= i < j < |Matches(column, key)| ==> Matches(column, key)[i] < Matches(column, key)[j]
  {
    if column == [] {
    } else {
      MatchesAreRows(column[..|column| - 1], key);
    }
  }

  /** A row is found at its rank. */
  lemma {:induction false} RowAtRank(column: seq<nat>, row: nat)
    requires row < |column|
    ensures Rank(column, row) < |Matches(column, column[row])|
    ensures Matches(column, column[row])[Rank(column, row)] == row
  {
    var n := |column| - 1;
    if row == n {
      assert column[..n] == column[..row];
    } else {
      RowAtRank(column[..n], row);
      assert column[..n][..row] == column[..row];
    }
  }

  /** What is found at a rank has that rank. */
  lemma RankOfMatch(column: seq<nat>, key: nat, i: nat)
    requires i < |Matches(column, key)|
    ensures Matches(column, key)[i] < |column| && column[Matches(column, key)[i]] == key
    ensures Rank(column, Matches(column, key)[i]) == i
  {
    MatchesAreRows(column, key);
    RowAtRank(column, Matches(column, key)[i]);
  }

  // --- The m-to-n join ---------------------------------------------------------------------------

  lemma RowPairs(columnA: seq<nat>, key: nat, n: nat, a: nat, b: nat)
    ensures (a, b) in PairsOfRow(Matches(columnA, key), n) <==> b == n && a < |columnA| && columnA[a] == key
  {
    var matches := Matches(columnA, key);
    MatchesAreRows(columnA, key);
    if b == n && a < |columnA| && columnA[a] == key {
      RowAtRank(columnA, a);
      assert PairsOfRow(matches, n)[Rank(columnA, a)] == (a, b);
    }
  }

  /** Exactly the pairs of rows with equal keys ... */
  lemma {:induction false} NestedLoopComplete(columnA: seq<nat>, columnB: seq<nat>, a: nat, b: nat)
    ensures (a, b) in NestedLoop(columnA, columnB) <==>
              a < |columnA| && b < |columnB| && columnA[a] == columnB[b]
    decreases |columnB|
  {
    if columnB == [] {
    } else {
      var n := |columnB| - 1;
      NestedLoopComplete(columnA, columnB[..n], a, b);
      RowPairs(columnA, columnB[n], n, a, b);
    }
  }

  ghost predicate Ordered(pairs: seq<(nat, nat)>) {
    forall i, j :: 0 <= i < j < |pairs| ==>
      pairs[i].1 < pairs[j].1 || (pairs[i].1 == pairs[j].1 && pairs[i].0 < pairs[j].0)
  }

  /** ... each exactly once, ordered by the row of B, then by the row of A. */
  lemma {:induction false} NestedLoopOrdered(columnA: seq<nat>, columnB: seq<nat>)
    ensures Ordered(NestedLoop(columnA, columnB))
    decreases |columnB|
  {
    if columnB == [] {
    } else {
      var n := |columnB| - 1;
      NestedLoopOrdered(columnA, columnB[..n]);
      MatchesAreRows(columnA, columnB[n]);
      var before, row := NestedLoop(columnA, columnB[..n]), PairsOfRow(Matches(columnA, columnB[n]), n);
      forall i | 0 <= i < |before|
        ensures before[i].1 < n
      {
        NestedLoopComplete(columnA, columnB[..n], before[i].0, before[i].1);
      }
    }
  }

  // --- The one-to-one join -----------------------------------------------------------------------

  lemma MatchAtRankIff(columnA: seq<nat>, key: nat, rank: nat, a: nat)
    ensures rank < |Matches(columnA, key)| && Matches(columnA, key)[rank] == a
            <==> a < |columnA| && columnA[a] == key && Rank(columnA, a) == rank
  {
    if rank < |Matches(columnA, key)| {
      RankOfMatch(columnA, key, rank);
    }
    if a < |columnA| && columnA[a] == key {
      RowAtRank(columnA, a);
    }
  }

  lemma LastPair(columnA: seq<nat>, columnB: seq<nat>, a: nat, b: nat)
    requires columnB != []
    ensures var n := |columnB| - 1;
            var matches, rank := Matches(columnA, columnB[n]), Rank(columnB, n);
            (a, b) in PairOff(columnA, columnB)
            <==> (a, b) in PairOff(columnA, columnB[..n]) || (b == n && rank < |matches| && matches[rank] == a)
  {
  }

  /** A pair is taken exactly when the keys are equal and so are the ranks. */
  lemma {:induction false} PairOffIff(columnA: seq<nat>, columnB: seq<nat>, a: nat, b: nat)
    ensures (a, b) in PairOff(columnA, columnB) <==>
              && a < |columnA| && b < |columnB| && columnA[a] == columnB[b]
              && Rank(columnA, a) == Rank(columnB, b)
    decreases |columnB|
  {
    if columnB == [] {
    } else {
      var n := |columnB| - 1;
      PairOffIff(columnA, columnB[..n], a, b);
      LastPair(columnA, columnB, a, b);
      if b < n {
        assert columnB[..n][..b] == columnB[..b];
      }
      MatchAtRankIff(columnA, columnB[n], Rank(columnB, n), a);
    }
  }

  /** No row of B, hence no row of A, is used twice. */
  lemma {:induction false} PairOffOrdered(columnA: seq<nat>, columnB: seq<nat>)
    ensures forall i, j :: 0 <= i < j < |PairOff(columnA, columnB)| ==>
              PairOff(columnA, columnB)[i].1 < PairOff(columnA, columnB)[j].1
    decreases |columnB|
  {
    if columnB == [] {
    } else {
      var n := |columnB| - 1;
      PairOffOrdered(columnA, columnB[..n]);
      var before := PairOff(columnA, columnB[..n]);
      forall i | 0 <= i < |before|
        ensures before[i].1 < n
      {
        PairOffIff(columnA, columnB[..n], before[i].0, before[i].1);
        assert before[i] == (before[i].0, before[i].1);
      }
    }
  }

  /** The pairs whose row of B holds the key. */
  function PairsWithKey(pairs: seq<(nat, nat)>, columnB: seq<nat>, key: nat): nat {
    if pairs == [] then 0
    else
      var n := |pairs| - 1;
      PairsWithKey(pairs[..n], columnB, key)
      + (if pairs[n].1 < |columnB| && columnB[pairs[n].1] == key then 1 else 0)
  }

  lemma {:induction false} KeyCountIsLocal(pairs: seq<(nat, nat)>, columnB: seq<nat>, n: nat, key: nat)
    requires n <= |columnB| && forall i :: 0 <= i < |pairs| ==> pairs[i].1 < n
    ensures PairsWithKey(pairs, columnB[..n], key) == PairsWithKey(pairs, columnB, key)
  {
    if pairs == [] {
    } else {
      KeyCountIsLocal(pairs[..|pairs| - 1], columnB, n, key);
    }
  }

  /** For every key the matching is as large as it can be. */
  lemma {:induction false} PairOffIsMaximal(columnA: seq<nat>, columnB: seq<nat>, key: nat)
    ensures PairsWithKey(PairOff(columnA, columnB), columnB, key)
            == Min(|Matches(columnA, key)|, |Matches(columnB, key)|)
    decreases |columnB|
  {
    if columnB == [] {
    } else {
      var n := |columnB| - 1;
      PairOffIsMaximal(columnA, columnB[..n], key);
      var before, all := PairOff(columnA, columnB[..n]), PairOff(columnA, columnB);
      forall i | 0 <= i < |before|
        ensures before[i].1 < n
      {
        PairOffIff(columnA, columnB[..n], before[i].0, before[i].1);
        assert before[i] == (before[i].0, before[i].1);
      }
      KeyCountIsLocal(before, columnB, n, key);
      assert |all| == |before| + 1 ==> all[..|before|] == before;
      assert |all| == |before| ==> all == before;
    }
  }

  // --- The join ----------------------------------------------------------------------------------

  method BuildTable(columnA: seq<nat>) returns (table: Table)
    ensures forall key :: Bucket(table, key) == Matches(columnA, key)
  {
    table := map[];
    for a := 0 to |columnA|
      invariant forall key :: Bucket(table, key) == Matches(columnA[..a], key)
    {
      var select := columnA[a];
      assert columnA[..a + 1][..a] == columnA[..a];
      table := table[select := Bucket(table, select) + [a]];
    }
    assert columnA[..|columnA|] == columnA;
  }

  method JoinRow(bucket: seq<nat>, b: nat) returns (pairs: seq<(nat, nat)>)
    ensures pairs == PairsOfRow(bucket, b)
  {
    pairs := [];
    for n := 0 to |bucket|
      invariant |pairs| == n && forall i :: 0 <= i < n ==> pairs[i] == (bucket[i], b)
    {
      pairs := pairs + [(bucket[n], b)];
    }
  }

  /** Every lookup reads the untouched bucket of the row's key. */
  method JoinMany(columnA: seq<nat>, columnB: seq<nat>) returns (result: seq<(nat, nat)>)
    ensures result == NestedLoop(columnA, columnB)
  {
    var table := BuildTable(columnA);
    result := [];
    for b := 0 to |columnB|
      invariant result == NestedLoop(columnA, columnB[..b])
    {
      assert columnB[..b + 1][..b] == columnB[..b];
      var row := JoinRow(Bucket(table, columnB[b]), b);
      result := result + row;
    }
    assert columnB[..|columnB|] == columnB;
  }

  /** What the first `used` rows of B have left of a bucket. */
  function Left(columnA: seq<nat>, used: seq<nat>, key: nat): seq<nat> {
    Matches(columnA, key)[Min(|Matches(used, key)|, |Matches(columnA, key)|)..]
  }

  function AfterUse(bucket: seq<nat>, used: bool): seq<nat> {
    if used && bucket != [] then bucket[1..] else bucket
  }

  ghost predicate Holds(table: Table, columnA: seq<nat>, used: seq<nat>) {
    forall key :: Bucket(table, key) == Left(columnA, used, key)
  }

  lemma UseOne(columnA: seq<nat>, columnB: seq<nat>, b: nat, table: Table, table': Table)
    requires b < |columnB| && Holds(table, columnA, columnB[..b])
    requires forall key :: Bucket(table', key) == AfterUse(Bucket(table, key), key == columnB[b])
    ensures Holds(table', columnA, columnB[..b + 1])
  {
    assert columnB[..b + 1][..b] == columnB[..b];
  }

  lemma PairOffStep(columnA: seq<nat>, columnB: seq<nat>, b: nat)
    requires b < |columnB|
    ensures var left := Left(columnA, columnB[..b], columnB[b]);
            PairOff(columnA, columnB[..b + 1])
            == PairOff(columnA, columnB[..b]) + (if left != [] then [(left[0], b)] else [])
  {
    assert columnB[..b + 1][..b] == columnB[..b];
  }

  /** Every lookup takes the first entry of the bucket and erases it. */
  method JoinOnce(columnA: seq<nat>, columnB: seq<nat>) returns (result: seq<(nat, nat)>)
    ensures result == PairOff(columnA, columnB)
  {
    var table := BuildTable(columnA);
    result := [];
    for b := 0 to |columnB|
      invariant result == PairOff(columnA, columnB[..b])
      invariant Holds(table, columnA, columnB[..b])
    {
      PairOffStep(columnA, columnB, b);
      var select := columnB[b];
      ghost var before := table;
      var found := Bucket(table, select);
      if found != [] {
        result := result + [(found[0], b)];
        table := table[select := found[1..]];
      }
      UseOne(columnA, columnB, b, before, table);
    }
    assert columnB[..|columnB|] == columnB;
  }

  /** `mode` 0 joins one to one, 1 joins m to n; any other mode joins nothing. */
  method HashJoinVector(columnA: seq<nat>, columnB: seq<nat>, mode: int) returns (result: seq<(nat, nat)>)
    ensures mode == 0 ==> result == PairOff(columnA, columnB)
    ensures mode == 1 ==> result == NestedLoop(columnA, columnB)
    ensures mode != 0 && mode != 1 ==> result == []
  {
    if mode == 0 {
      result := JoinOnce(columnA, columnB);
    } else if mode == 1 {
      result := JoinMany(columnA, columnB);
    } else {
      result := [];
    }
  }
}
