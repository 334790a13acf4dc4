/** Averages per time window: a table of windows that doubles when a window past its end is needed. */
module TimeWindows {
  import opened Arithmetic
  import opened Sorting
  import opened Words

  /** A time and the value recorded for it. */
  type Item = (nat, nat)

  /** The window of a time, as the code computes it: a wrapped difference, divided, then cut. */
  function Window(time: nat, start: nat, interval: nat): int
    requires interval > 0
  {
    ToInt((time - start) % WORD / interval)
  }

  /** The cut loses nothing, for a time that does not precede the first one, exactly as long as the
      windows in between can be counted by an int. */
  lemma WindowIsElapsedIff(time: nat, start: nat, interval: nat)
    requires start <= time < WORD && interval > 0
    ensures Window(time, start, interval) == (time - start) / interval <==> (time - start) / interval <= INT_MAX
  {
    CutIff((time - start) / interval);
  }

  function SumAt(items: seq<Item>, start: nat, interval: nat, w: nat): nat
    requires interval > 0
  {
    if items == [] then 0
    else
      var last := items[|items| - 1];
      SumAt(items[..|items| - 1], start, interval, w) + (if Window(last.0, start, interval) == w then last.1 else 0)
  }

  function CountAt(items: seq<Item>, start: nat, interval: nat, w: nat): nat
    requires interval > 0
  {
    if items == [] then 0
    else
      var last := items[|items| - 1];
      CountAt(items[..|items| - 1], start, interval, w) + (if Window(last.0, start, interval) == w then 1 else 0)
  }

  /** Every item falls into one of the first n windows. */
  ghost predicate OnGrid(items: seq<Item>, start: nat, interval: nat, n: nat)
    requires interval > 0
  {
    forall item :: item in items ==> 0 <= Window(item.0, start, interval) < n
  }

  lemma {:induction false} NothingBeyond(items: seq<Item>, start: nat, interval: nat, n: nat, w: nat)
    requires interval > 0 && OnGrid(items, start, interval, n) && w >= n
    ensures SumAt(items, start, interval, w) == 0 && CountAt(items, start, interval, w) == 0
    decreases |items|
  {
    if items == [] {
    } else {
      assert items[|items| - 1] in items;
      NothingBeyond(items[..|items| - 1], start, interval, n, w);
    }
  }

  ghost predicate Tallies(data: seq<(nat, nat)>, items: seq<Item>, start: nat, interval: nat)
    requires interval > 0
  {
    forall w :: 0 <= w < |data| ==> data[w] == (SumAt(items, start, interval, w), CountAt(items, start, interval, w))
  }

  function Grown(data: seq<(nat, nat)>): seq<(nat, nat)> {
    data + seq(|data|, _ => (0, 0))
  }

  lemma GrowthKeepsTallies(data: seq<(nat, nat)>, items: seq<Item>, start: nat, interval: nat)
    requires interval > 0 && OnGrid(items, start, interval, |data|) && Tallies(data, items, start, interval)
    ensures Tallies(Grown(data), items, start, interval) && OnGrid(items, start, interval, |Grown(data)|)
  {
    forall w | |data| <= w < |Grown(data)|
      ensures SumAt(items, start, interval, w) == 0 && CountAt(items, start, interval, w) == 0
    {
      NothingBeyond(items, start, interval, |data|, w);
    }
  }

  lemma OneMoreItem(data: seq<(nat, nat)>, items: seq<Item>, start: nat, interval: nat, item: Item)
    requires interval > 0 && Tallies(data, items, start, interval)
    requires OnGrid(items, start, interval, |data|)
    requires 0 <= Window(item.0, start, interval) < |data|
    ensures var i := Window(item.0, start, interval);
            && Tallies(data[i := (data[i].0 + item.1, data[i].1 + 1)], items + [item], start, interval)
            && OnGrid(items + [item], start, interval, |data|)
  {
    assert (items + [item])[..|items|] == items;
  }

  /** The table holds the sum and the count of every window, and no item is missing from it. */
  ghost predicate Recorded(data: seq<(nat, nat)>, items: seq<Item>, start: nat, interval: nat)
    requires interval > 0
  {
    |data| >= 1 && OnGrid(items, start, interval, |data|) && Tallies(data, items, start, interval)
  }

  /** The size of the table after a look at an index: doubled, if the index lies past the end. */
  function Enough(size: nat, index: int): nat {
    if index >= size then 2 * size else size
  }

  function Room(data: seq<(nat, nat)>, index: int): (room: seq<(nat, nat)>)
    ensures |room| == Enough(|data|, index)
  {
    if index >= |data| then Grown(data) else data
  }

  /** The time of the first item. */
  function StartOf(items: seq<Item>, tp: nat): nat {
    if items == [] then tp else items[0].0
  }

  function Added(data: seq<(nat, nat)>, index: nat, v: nat): seq<(nat, nat)>
    requires index < |data|
  {
    data[index := (data[index].0 + v, data[index].1 + 1)]
  }

  lemma NothingYet(data: seq<(nat, nat)>, start: nat, other: nat, interval: nat)
    requires interval > 0 && Recorded(data, [], start, interval)
    ensures Recorded(data, [], other, interval)
  {
  }

  lemma CommitKeeps(data: seq<(nat, nat)>, items: seq<Item>, start: nat, interval: nat, item: Item)
    requires interval > 0 && Recorded(data, items, start, interval)
    requires 0 <= Window(item.0, start, interval) < Enough(|data|, Window(item.0, start, interval))
    ensures var i := Window(item.0, start, interval);
            Recorded(Added(Room(data, i), i, item.1), items + [item], start, interval)
  {
    if Window(item.0, start, interval) >= |data| {
      GrowthKeepsTallies(data, items, start, interval);
      OneMoreItem(Grown(data), items, start, interval, item);
    } else {
      OneMoreItem(data, items, start, interval, item);
    }
  }

  class TimeAvgPmc {
    const interval: nat
    var pmcData: seq<(nat, nat)>
    var startTime: nat
    var pmcSize: nat
    var started: bool
    ghost var history: seq<Item>

    ghost predicate Valid()
      reads this
    {
      && interval > 0
      && pmcSize == |pmcData|
      && (started <==> history != [])
      && (started ==> startTime == history[0].0)
      && Recorded(pmcData, history, startTime, interval)
    }

    constructor (interval: nat)
      requires interval > 0
      ensures Valid() && history == [] && pmcSize == 30 && this.interval == interval
    {
      this.interval := interval;
      pmcData, pmcSize := seq(30, _ => (0, 0)), 30;
      startTime, started, history := 0, false, [];
    }

    /** The table doubles once at most. An index that is negative, or still past the end, addresses
        memory outside the table; nothing can be said about the state then. */
    method Commit(tp: nat, data: nat) returns (inBounds: bool)
      requires Valid()
      modifies this
      ensures var index := Window(tp, StartOf(old(history), tp), interval);
              && (inBounds <==> 0 <= index < Enough(old(pmcSize), index))
              && (inBounds ==>
                    && Valid() && history == old(history) + [(tp, data)]
                    && pmcSize == Enough(old(pmcSize), index))
    {
      ghost var before, table := history, pmcData;
      if !started {
        NothingYet(table, startTime, tp, interval);
        startTime := tp;
        started := true;
      }
      var index := Window(tp, startTime, interval);
      if index > pmcSize - 1 {
        pmcSize := pmcSize * 2;
        pmcData := Grown(pmcData);
      }
      if !(0 <= index < |pmcData|) {
        return false;
      }
      CommitKeeps(table, before, startTime, interval, (tp, data));
      pmcData := Added(pmcData, index, data);
      history := history + [(tp, data)];
      return true;
    }
  }

  // --- Averages over rows ------------------------------------------------------------------------

  /** How large the table is after these times; each may make it double. */
  function TableSize(times: seq<nat>, interval: nat): nat
    requires interval > 0
  {
    if times == [] then 30
    else
      var before, last := TableSize(times[..|times| - 1], interval), times[|times| - 1];
      Enough(before, Window(last, times[0], interval))
  }

  predicate FitsAt(times: seq<nat>, interval: nat, i: nat)
    requires interval > 0 && i < |times|
  {
    var index := Window(times[i], times[0], interval);
    0 <= index < Enough(TableSize(times[..i], interval), index)
  }

  predicate FitsUpTo(times: seq<nat>, interval: nat, n: nat)
    requires interval > 0 && n <= |times|
  {
    forall i :: 0 <= i < n ==> FitsAt(times, interval, i)
  }

  /** No time outruns the table, which doubles once at a time. */
  predicate Fits(times: seq<nat>, interval: nat)
    requires interval > 0
  {
    FitsUpTo(times, interval, |times|)
  }

  lemma FitsMore(times: seq<nat>, interval: nat, i: nat)
    requires interval > 0 && i < |times|
    ensures FitsUpTo(times, interval, i + 1) <==> FitsUpTo(times, interval, i) && FitsAt(times, interval, i)
    ensures Fits(times, interval) ==> FitsAt(times, interval, i)
  {
  }

  // --- Which times fit ---------------------------------------------------------------------------

  /** How often the table must have doubled to hold an index: 0 below 30, 1 below 60, 2 below 120. */
  function Octave(index: nat): nat {
    if index < 30 then 0 else 1 + Octave(index / 2)
  }

  function Span(doublings: nat): (size: nat)
    ensures size >= 30
  {
    if doublings == 0 then 30 else 2 * Span(doublings - 1)
  }

  lemma {:induction false} OctaveIff(index: nat, k: nat)
    ensures Octave(index) <= k <==> index < Span(k)
  {
    if index < 30 || k == 0 {
    } else {
      OctaveIff(index / 2, k - 1);
    }
  }

  function OctaveAt(times: seq<nat>, interval: nat, i: nat): nat
    requires interval > 0 && i < |times|
  {
    var index := Window(times[i], times[0], interval);
    if index < 0 then 0 else Octave(index)
  }

  /** The greatest octave among the first n times. */
  function Top(times: seq<nat>, interval: nat, n: nat): nat
    requires interval > 0 && n <= |times|
  {
    if n == 0 then 0 else Max(Top(times, interval, n - 1), OctaveAt(times, interval, n - 1))
  }

  predicate ClimbsAt(times: seq<nat>, interval: nat, i: nat)
    requires interval > 0 && i < |times|
  {
    Window(times[i], times[0], interval) >= 0 && OctaveAt(times, interval, i) <= Top(times, interval, i) + 1
  }

  /** No index is negative, and none lies more than one octave above the greatest one before it. */
  predicate Climbs(times: seq<nat>, interval: nat)
    requires interval > 0
  {
    forall i :: 0 <= i < |times| ==> ClimbsAt(times, interval, i)
  }

  lemma FitsAtIff(times: seq<nat>, interval: nat, i: nat)
    requires interval > 0 && i < |times|
    requires TableSize(times[..i], interval) == Span(Top(times, interval, i))
    ensures FitsAt(times, interval, i) <==> ClimbsAt(times, interval, i)
    ensures FitsAt(times, interval, i) ==> TableSize(times[..i + 1], interval) == Span(Top(times, interval, i + 1))
  {
    var index, top := Window(times[i], times[0], interval), Top(times, interval, i);
    assert times[..i + 1][..i] == times[..i];
    if index >= 0 {
      OctaveIff(index, top);
      OctaveIff(index, top + 1);
    }
  }

  lemma {:induction false} SizeIsSpan(times: seq<nat>, interval: nat, n: nat)
    requires interval > 0 && n <= |times| && FitsUpTo(times, interval, n)
    ensures TableSize(times[..n], interval) == Span(Top(times, interval, n))
  {
    if n == 0 {
    } else {
      FitsMore(times, interval, n - 1);
      SizeIsSpan(times, interval, n - 1);
      FitsAtIff(times, interval, n - 1);
    }
  }

  lemma {:induction false} FitsUpToIff(times: seq<nat>, interval: nat, n: nat)
    requires interval > 0 && n <= |times|
    ensures FitsUpTo(times, interval, n) <==> forall i :: 0 <= i < n ==> ClimbsAt(times, interval, i)
  {
    if n == 0 {
    } else {
      FitsUpToIff(times, interval, n - 1);
      FitsMore(times, interval, n - 1);
      if FitsUpTo(times, interval, n - 1) {
        SizeIsSpan(times, interval, n - 1);
        FitsAtIff(times, interval, n - 1);
      }
    }
  }

  /** The times fit if and only if they climb by octaves. */
  lemma FitsIff(times: seq<nat>, interval: nat)
    requires interval > 0
    ensures Fits(times, interval) <==> Climbs(times, interval)
  {
    FitsUpToIff(times, interval, |times|);
  }

  /** A minute without requests, averaged per second, is enough to outrun it. */
  lemma IdleMinuteOutruns()
    ensures !Fits([0, 60_000_000_000], 1_000_000_000)
  {
    var times := [0, 60_000_000_000];
    assert times[..1][..0] == [] && TableSize(times[..1], 1_000_000_000) == 30;
    assert !FitsAt(times, 1_000_000_000, 1);
  }

  function Times(pairs: seq<(nat, nat)>): seq<nat> {
    seq(|pairs|, i requires 0 <= i < |pairs| => pairs[i].0)
  }

  function Valued(pairs: seq<(nat, nat)>, value: nat -> nat): seq<Item> {
    seq(|pairs|, i requires 0 <= i < |pairs| => (pairs[i].0, value(pairs[i].1)))
  }

  function Lookup(latency: seq<nat>): nat -> nat {
    (k: nat) => if k < |latency| then latency[k] else 0
  }

  datatype Averages = OutOfBounds | Table(data: seq<(nat, nat)>)

  lemma NextRow(items: seq<Item>, times: seq<nat>, interval: nat, i: nat)
    requires interval > 0 && i < |times| == |items| && forall j :: 0 <= j < |times| ==> items[j].0 == times[j]
    ensures var size, index := TableSize(times[..i], interval),
              Window(items[i].0, StartOf(items[..i], items[i].0), interval);
            && TableSize(times[..i + 1], interval) == Enough(size, index)
            && (FitsAt(times, interval, i) <==> 0 <= index < Enough(size, index))
    ensures items[..i + 1] == items[..i] + [items[i]]
  {
    assert times[..i + 1][..i] == times[..i];
  }

  /** Feeds an empty table as long as the rows land inside it. */
  method Feed(avgPmc: TimeAvgPmc, latency: seq<nat>, timeSeq: seq<(nat, nat)>, ghost times: seq<nat>,
              ghost items: seq<Item>)
    returns (inBounds: bool)
    requires avgPmc.Valid() && avgPmc.history == [] && avgPmc.pmcSize == 30
    requires |times| == |items| == |timeSeq| && forall i :: 0 <= i < |items| ==> items[i].0 == times[i]
    requires forall i :: 0 <= i < |items| ==>
               timeSeq[i].1 < |latency| && items[i] == (timeSeq[i].0, latency[timeSeq[i].1])
    modifies avgPmc
    ensures inBounds <==> Fits(times, avgPmc.interval)
    ensures inBounds ==> avgPmc.Valid() && avgPmc.history == items
  {
    for i := 0 to |timeSeq|
      invariant avgPmc.Valid() && avgPmc.history == items[..i]
      invariant avgPmc.pmcSize == TableSize(times[..i], avgPmc.interval)
      invariant FitsUpTo(times, avgPmc.interval, i)
    {
      NextRow(items, times, avgPmc.interval, i);
      FitsMore(times, avgPmc.interval, i);
      var tp, data := timeSeq[i].0, latency[timeSeq[i].1];
      inBounds := avgPmc.Commit(tp, data);
      if !inBounds {
        return;
      }
    }
    assert items[..|items|] == items;
    return true;
  }

  /** Feeds the latencies in the order of their rows' end times. It stays inside the table if and only
      if the times fit; then every window holds the sum and the number of its own rows. */
  method GetAvgSeq(interval: nat, latency: seq<nat>, timeSeq: seq<(nat, nat)>) returns (averages: Averages)
    requires interval > 0 && |timeSeq| == |latency| && forall p :: p in timeSeq ==> p.1 < |latency|
    ensures averages.Table? <==> Fits(Times(timeSeq), interval)
    ensures averages.Table? && timeSeq != [] ==>
              Recorded(averages.data, Valued(timeSeq, Lookup(latency)), timeSeq[0].0, interval)
  {
    var avgPmc := new TimeAvgPmc(interval);
    assert forall i :: 0 <= i < |timeSeq| ==> timeSeq[i] in timeSeq;
    var inBounds := Feed(avgPmc, latency, timeSeq, Times(timeSeq), Valued(timeSeq, Lookup(latency)));
    return if inBounds then Table(avgPmc.pmcData) else OutOfBounds;
  }

  // --- Order does not matter ---------------------------------------------------------------------

  lemma {:induction false} SumsOfConcat(a: seq<Item>, b: seq<Item>, start: nat, interval: nat, w: nat)
    requires interval > 0
    ensures SumAt(a + b, start, interval, w) == SumAt(a, start, interval, w) + SumAt(b, start, interval, w)
    ensures CountAt(a + b, start, interval, w) == CountAt(a, start, interval, w) + CountAt(b, start, interval, w)
    decreases |b|
  {
    if b == [] {
      assert a + b == a;
    } else {
      SumsOfConcat(a, b[..|b| - 1], start, interval, w);
      assert (a + b)[..|a + b| - 1] == a + b[..|b| - 1];
    }
  }

  lemma SumsWithout(a: seq<Item>, i: nat, start: nat, interval: nat, w: nat)
    requires interval > 0 && i < |a|
    ensures SumAt(a, start, interval, w)
            == SumAt(Without(a, i), start, interval, w) + SumAt([a[i]], start, interval, w)
    ensures CountAt(a, start, interval, w)
            == CountAt(Without(a, i), start, interval, w) + CountAt([a[i]], start, interval, w)
  {
    assert a == a[..i] + ([a[i]] + a[i + 1..]);
    SumsOfConcat(a[..i], [a[i]] + a[i + 1..], start, interval, w);
    SumsOfConcat([a[i]], a[i + 1..], start, interval, w);
    SumsOfConcat(a[..i], a[i + 1..], start, interval, w);
  }

  lemma FindIn(p: seq<(nat, nat)>, q: seq<(nat, nat)>) returns (i: nat)
    requires multiset(p) == multiset(q) && p != []
    ensures i < |q| && q[i] == p[|p| - 1]
    ensures multiset(p[..|p| - 1]) == multiset(Without(q, i))
  {
    var last := p[|p| - 1];
    assert last in multiset(q);
    i :| 0 <= i < |q| && q[i] == last;
    WithoutOne(p, |p| - 1);
    WithoutOne(q, i);
    assert Without(p, |p| - 1) == p[..|p| - 1];
  }

  /** Sorting the rows by end time changes neither the sum nor the count of any window. */
  lemma {:induction false} SumsOfRearranged(p: seq<(nat, nat)>, q: seq<(nat, nat)>, value: nat -> nat,
                                            start: nat, interval: nat, w: nat)
    requires interval > 0 && multiset(p) == multiset(q)
    ensures SumAt(Valued(p, value), start, interval, w) == SumAt(Valued(q, value), start, interval, w)
    ensures CountAt(Valued(p, value), start, interval, w) == CountAt(Valued(q, value), start, interval, w)
    decreases |p|
  {
    if p == [] {
      assert |multiset(q)| == 0;
    } else {
      var n := |p| - 1;
      var i := FindIn(p, q);
      SumsOfRearranged(p[..n], Without(q, i), value, start, interval, w);
      SumsWithout(Valued(q, value), i, start, interval, w);
      SumsWithout(Valued(p, value), n, start, interval, w);
      assert Valued(Without(q, i), value) == Without(Valued(q, value), i);
      assert Valued(p[..n], value) == Without(Valued(p, value), n);
    }
  }

  // --- Every row once ----------------------------------------------------------------------------

  /** The counts and sums of the first n windows together. */
  function CountsBelow(items: seq<Item>, start: nat, interval: nat, n: nat): nat
    requires interval > 0
  {
    if n == 0 then 0 else CountsBelow(items, start, interval, n - 1) + CountAt(items, start, interval, n - 1)
  }

  function SumsBelow(items: seq<Item>, start: nat, interval: nat, n: nat): nat
    requires interval > 0
  {
    if n == 0 then 0 else SumsBelow(items, start, interval, n - 1) + SumAt(items, start, interval, n - 1)
  }

  function Total(items: seq<Item>): nat {
    if items == [] then 0 else Total(items[..|items| - 1]) + items[|items| - 1].1
  }

  lemma {:induction false} BelowWithLast(items: seq<Item>, start: nat, interval: nat, n: nat)
    requires interval > 0 && items != []
    ensures var front, last := items[..|items| - 1], items[|items| - 1];
            var hit := if 0 <= Window(last.0, start, interval) < n then 1 else 0;
            && CountsBelow(items, start, interval, n) == CountsBelow(front, start, interval, n) + hit
            && SumsBelow(items, start, interval, n) == SumsBelow(front, start, interval, n) + hit * last.1
  {
    if n == 0 {
    } else {
      BelowWithLast(items, start, interval, n - 1);
    }
  }

  lemma {:induction false} BelowNothing(start: nat, interval: nat, n: nat)
    requires interval > 0
    ensures CountsBelow([], start, interval, n) == 0 && SumsBelow([], start, interval, n) == 0
  {
    if n == 0 {
    } else {
      BelowNothing(start, interval, n - 1);
    }
  }

  /** On a large enough grid every row is counted in exactly one window, and no latency is lost. */
  lemma {:induction false} EveryRowOnce(items: seq<Item>, start: nat, interval: nat, n: nat)
    requires interval > 0 && OnGrid(items, start, interval, n)
    ensures CountsBelow(items, start, interval, n) == |items|
    ensures SumsBelow(items, start, interval, n) == Total(items)
    decreases |items|
  {
    if items == [] {
      BelowNothing(start, interval, n);
    } else {
      assert items[|items| - 1] in items;
      EveryRowOnce(items[..|items| - 1], start, interval, n);
      BelowWithLast(items, start, interval, n);
    }
  }
}
