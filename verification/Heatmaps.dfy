/** Heat maps of the sectors a drive was asked for: what was committed is spread over a bounded number
    of equally wide buckets. */
module Heatmaps {
  import opened Arithmetic
  import opened Words

  const INT64_MAX: nat := 0x7FFF_FFFF_FFFF_FFFF

  /** Sector and number of sectors. */
  type Sample = (nat, nat)

  /** Everything committed for sectors in [lo, hi). */
  function SumIn(data: seq<Sample>, lo: nat, hi: nat): nat {
    if data == [] then 0
    else
      var last := data[|data| - 1];
      SumIn(data[..|data| - 1], lo, hi) + (if lo <= last.0 < hi then last.1 else 0)
  }

  function SumAll(data: seq<Sample>): nat {
    if data == [] then 0 else SumAll(data[..|data| - 1]) + data[|data| - 1].1
  }

  function Total(buckets: seq<nat>): nat {
    if buckets == [] then 0 else Total(buckets[..|buckets| - 1]) + buckets[|buckets| - 1]
  }

  /** The least and the greatest sector seen, from their starting values on. */
  ghost predicate Bounds(data: seq<Sample>, min: nat, max: nat) {
    && (forall s :: s in data ==> min <= s.0 <= max)
    && (min == INT64_MAX || exists s :: s in data && s.0 == min)
    && (max == 0 || exists s :: s in data && s.0 == max)
  }

  // --- The bucket width --------------------------------------------------------------------------

  /** The width the code means to use. */
  function Spread(range: nat, partition: nat): nat
    requires partition >= 1
  {
    Quotient(range, partition) + 100
  }

  /** The width it divides by: cut to an int, then taken as a 64-bit unsigned integer again. */
  function Width(range: nat, partition: nat): nat
    requires partition >= 1
  {
    ToInt(Spread(range, partition)) % WORD
  }

  function Buckets(range: nat, partition: nat): nat
    requires partition >= 1 && Width(range, partition) > 0
  {
    Quotient(range, Width(range, partition)) + 1
  }

  /** The division is by zero if and only if the width it means to use is a multiple of 2^32. */
  lemma DividesByZeroIff(range: nat, partition: nat)
    requires partition >= 1
    ensures Width(range, partition) == 0 <==> Spread(range, partition) % HALF_WORD == 0
  {
  }

  lemma LastBucket(partition: nat, width: nat)
    requires partition >= 1
    ensures partition * width == (partition - 1) * width + width
  {
  }

  lemma EnoughBuckets(range: nat, partition: nat)
    requires partition >= 1 && Width(range, partition) > 0
    ensures Buckets(range, partition) <= partition <==> range < partition * Width(range, partition)
  {
    var w := Width(range, partition);
    if range < partition * w {
      LastBucket(partition, w);
      QuotientAtMost(range, w, partition - 1);
    } else {
      QuotientAtLeast(range, w, partition);
    }
  }

  lemma Wider(range: nat, partition: nat, q: nat)
    requires partition >= 1 && range < q * partition + partition
    ensures range < partition * (q + 100)
  {
    DistributeLeft(partition, q, 100);
  }

  lemma UsedAsMeant(range: nat, partition: nat)
    requires partition >= 1 && Spread(range, partition) <= INT_MAX
    ensures Width(range, partition) == Spread(range, partition)
  {
  }

  /** A width that an int holds is used as meant, and keeps the number of buckets within the partition. */
  lemma AtMostPartition(range: nat, partition: nat)
    requires partition >= 1 && Spread(range, partition) <= INT_MAX
    ensures Width(range, partition) == Spread(range, partition)
    ensures 1 <= Buckets(range, partition) <= partition
  {
    UsedAsMeant(range, partition);
    Wider(range, partition, Quotient(range, partition));
    EnoughBuckets(range, partition);
  }

  /** A cut that keeps the sign leaves too little: the buckets no longer reach past the range. */
  lemma CutTooNarrow(range: nat, partition: nat)
    requires partition >= 1 && Width(range, partition) > 0
    requires Spread(range, partition) > INT_MAX && Spread(range, partition) % HALF_WORD <= INT_MAX
    ensures Buckets(range, partition) > partition
  {
    var w, q := Width(range, partition), Quotient(range, partition);
    assert w <= q;
    Times(w, q, partition);
    EnoughBuckets(range, partition);
  }

  /** A cut that turns the width negative makes it all but the whole 64-bit range. */
  lemma CutNegative(range: nat, partition: nat)
    requires partition >= 2 && range < WORD && Spread(range, partition) % HALF_WORD > INT_MAX
    ensures Width(range, partition) > 0 && Buckets(range, partition) <= 2
  {
    QuotientAtMost(range, Width(range, partition), 1);
  }

  /** There are no more buckets than asked for if and only if an int holds the intended width, or the
      cut turns it negative. */
  lemma WithinPartitionIff(range: nat, partition: nat)
    requires partition >= 2 && range < WORD && Width(range, partition) > 0
    ensures Buckets(range, partition) <= partition
            <==> Spread(range, partition) <= INT_MAX || Spread(range, partition) % HALF_WORD > INT_MAX
  {
    if Spread(range, partition) <= INT_MAX {
      AtMostPartition(range, partition);
    } else if Spread(range, partition) % HALF_WORD > INT_MAX {
      CutNegative(range, partition);
    } else {
      CutTooNarrow(range, partition);
    }
  }

  /** A drive of 16 TiB is large enough to divide by zero, one sector range further on there are more
      than 2^32 buckets, and so there are after a flush request, which carries the largest sector. */
  lemma NarrowWidthFails()
    ensures Width(8 * (HALF_WORD - 100), 8) == 0
    ensures Width(8 * (HALF_WORD - 99), 8) == 1 && Buckets(8 * (HALF_WORD - 99), 8) > HALF_WORD
    ensures Width(WORD - 1, 8) == 99 && Buckets(WORD - 1, 8) > HALF_WORD
  {
    QuotientIs(8 * (HALF_WORD - 100), 8, HALF_WORD - 100);
    QuotientIs(8 * (HALF_WORD - 99), 8, HALF_WORD - 99);
    QuotientIs(WORD - 1, 8, 0x2000_0000_0000_0000 - 1);
    QuotientAtLeast(8 * (HALF_WORD - 99), 1, HALF_WORD);
    QuotientAtLeast(WORD - 1, 99, HALF_WORD);
  }

  // --- Filling -----------------------------------------------------------------------------------

  /** One sample lands in the bucket of its sector. */
  function Place(buckets: seq<nat>, s: Sample, min: nat, width: nat): seq<nat>
    requires width > 0 && min <= s.0 && Quotient(s.0 - min, width) < |buckets|
  {
    var i := Quotient(s.0 - min, width);
    buckets[i := buckets[i] + s.1]
  }

  ghost predicate InRange(data: seq<Sample>, min: nat, width: nat, n: nat)
    requires width > 0
  {
    forall s :: s in data ==> min <= s.0 && Quotient(s.0 - min, width) < n
  }

  function Filled(buckets: seq<nat>, data: seq<Sample>, min: nat, width: nat): (r: seq<nat>)
    requires width > 0 && InRange(data, min, width, |buckets|)
    ensures |r| == |buckets|
  {
    if data == [] then buckets
    else
      assert data[|data| - 1] in data;
      Place(Filled(buckets, data[..|data| - 1], min, width), data[|data| - 1], min, width)
  }

  lemma {:induction false} TotalOfUpdate(buckets: seq<nat>, i: nat, v: nat)
    requires i < |buckets|
    ensures Total(buckets[i := buckets[i] + v]) == Total(buckets) + v
  {
    var n := |buckets| - 1;
    var after := buckets[i := buckets[i] + v];
    if i < n {
      TotalOfUpdate(buckets[..n], i, v);
      assert after[..n] == buckets[..n][i := buckets[i] + v];
    } else {
      assert after[..n] == buckets[..n];
    }
  }

  /** Nothing committed is lost or counted twice ... */
  lemma {:induction false} FillConserves(buckets: seq<nat>, data: seq<Sample>, min: nat, width: nat)
    requires width > 0 && InRange(data, min, width, |buckets|)
    ensures Total(Filled(buckets, data, min, width)) == Total(buckets) + SumAll(data)
    decreases |data|
  {
    if data == [] {
    } else {
      var last := data[|data| - 1];
      assert last in data;
      FillConserves(buckets, data[..|data| - 1], min, width);
      TotalOfUpdate(Filled(buckets, data[..|data| - 1], min, width), Quotient(last.0 - min, width), last.1);
    }
  }

  /** ... and every bucket holds exactly what was committed for its own interval of sectors. */
  lemma {:induction false} BucketIsInterval(buckets: seq<nat>, data: seq<Sample>, min: nat, width: nat, b: nat)
    requires width > 0 && InRange(data, min, width, |buckets|) && b < |buckets|
    ensures Filled(buckets, data, min, width)[b] == buckets[b] + SumIn(data, min + b * width, min + b * width + width)
    decreases |data|
  {
    if data == [] {
    } else {
      var last := data[|data| - 1];
      assert last in data;
      BucketIsInterval(buckets, data[..|data| - 1], min, width, b);
      if min + b * width <= last.0 < min + b * width + width {
        QuotientIs(last.0 - min, width, b);
      }
    }
  }

  /** The buckets once the first `k` samples have been placed. */
  ghost predicate IsFilled(buckets: seq<nat>, start: seq<nat>, data: seq<Sample>, k: nat, min: nat, width: nat) {
    && width > 0 && k <= |data|
    && InRange(data[..k], min, width, |start|)
    && buckets == Filled(start, data[..k], min, width)
  }

  lemma NextFill(buckets: seq<nat>, start: seq<nat>, data: seq<Sample>, k: nat, min: nat, width: nat)
    requires k < |data| && IsFilled(buckets, start, data, k, min, width) && InRange(data, min, width, |start|)
    ensures min <= data[k].0 && Quotient(data[k].0 - min, width) < |buckets|
    ensures IsFilled(Place(buckets, data[k], min, width), start, data, k + 1, min, width)
  {
    assert data[k] in data;
    assert data[..k + 1][..k] == data[..k];
  }

  lemma AllFilled(buckets: seq<nat>, start: seq<nat>, data: seq<Sample>, min: nat, width: nat)
    requires IsFilled(buckets, start, data, |data|, min, width)
    ensures InRange(data, min, width, |start|) && buckets == Filled(start, data, min, width)
  {
    assert data[..|data|] == data;
  }

  function Zeros(n: nat): seq<nat> {
    seq(n, _ => 0)
  }

  lemma {:induction false} TotalOfZeros(n: nat)
    ensures Total(Zeros(n)) == 0
  {
    if n == 0 {
    } else {
      assert Zeros(n)[..n - 1] == Zeros(n - 1);
      TotalOfZeros(n - 1);
    }
  }

  function Resized(buckets: seq<nat>, n: nat): seq<nat> {
    if n <= |buckets| then buckets[..n] else buckets + Zeros(n - |buckets|)
  }

  lemma MoreBounds(data: seq<Sample>, min: nat, max: nat, s: Sample)
    requires Bounds(data, min, max) && (data != [] ==> min <= max)
    ensures var more, lo, hi := data + [s], if s.0 < min then s.0 else min, if s.0 > max then s.0 else max;
            Bounds(more, lo, hi) && lo <= hi
  {
    var more := data + [s];
    assert more[|data|] == s;
    forall x | x in data
      ensures x in more
    {
    }
  }

  lemma AllInRange(data: seq<Sample>, min: nat, max: nat, width: nat)
    requires Bounds(data, min, max) && data != [] && min <= max && width > 0
    ensures InRange(data, min, width, Quotient(max - min, width) + 1)
  {
    forall s | s in data
      ensures min <= s.0 && Quotient(s.0 - min, width) < Quotient(max - min, width) + 1
    {
      QuotientMonotone(s.0 - min, max - min, width);
    }
  }

  /** Every bucket has grown by what was committed for its own interval of sectors; a new one from 0. */
  ghost predicate AddsIntervals(before: seq<nat>, after: seq<nat>, data: seq<Sample>, min: nat, width: nat, n: nat) {
    && |after| == n
    && forall b :: 0 <= b < n ==>
         after[b] == (if b < |before| then before[b] else 0) + SumIn(data, min + b * width, min + b * width + width)
  }

  lemma ResizedKeeps(before: seq<nat>, n: nat)
    ensures |Resized(before, n)| == n
    ensures forall b :: 0 <= b < n ==> Resized(before, n)[b] == if b < |before| then before[b] else 0
    ensures before == [] ==> Resized(before, n) == Zeros(n)
  {
  }

  lemma GenerationAdds(before: seq<nat>, data: seq<Sample>, min: nat, width: nat, n: nat)
    requires width > 0 && InRange(data, min, width, n) && |Resized(before, n)| == n
    ensures AddsIntervals(before, Filled(Resized(before, n), data, min, width), data, min, width, n)
    ensures before == [] ==> Total(Filled(Resized(before, n), data, min, width)) == SumAll(data)
  {
    ResizedKeeps(before, n);
    forall b | 0 <= b < n
      ensures Filled(Resized(before, n), data, min, width)[b]
           == Resized(before, n)[b] + SumIn(data, min + b * width, min + b * width + width)
    {
      BucketIsInterval(Resized(before, n), data, min, width, b);
    }
    if before == [] {
      FillConserves(Zeros(n), data, min, width);
      TotalOfZeros(n);
    }
  }

  class Heatmap {
    const partition: nat
    var max: nat
    var min: nat
    var recvData: seq<Sample>
    var bucket: seq<nat>

    ghost predicate Valid()
      reads this
    {
      Bounds(recvData, min, max) && (recvData != [] ==> min <= max)
    }

    constructor (par: nat)
      ensures Valid() && recvData == [] && bucket == [] && partition == par * 8
    {
      partition := par * 8;
      max, min, recvData, bucket := 0, INT64_MAX, [], [];
    }

    method Commit(sector: nat, stats: nat)
      requires Valid()
      modifies this
      ensures Valid() && recvData == old(recvData) + [(sector, stats)] && bucket == old(bucket)
    {
      ghost var before, least, most := recvData, min, max;
      if sector > max {
        max := sector;
      }
      if sector < min {
        min := sector;
      }
      recvData := recvData + [(sector, stats)];
      MoreBounds(before, least, most, (sector, stats));
    }

    method Fill(size: nat)
      requires size > 0 && InRange(recvData, min, size, |bucket|)
      modifies `bucket
      ensures bucket == Filled(old(bucket), recvData, min, size)
    {
      ghost var start := bucket;
      for k := 0 to |recvData|
        invariant IsFilled(bucket, start, recvData, k, min, size)
      {
        var item := recvData[k];
        NextFill(bucket, start, recvData, k, min, size);
        var i := Quotient(item.0 - min, size);
        bucket := bucket[i := bucket[i] + item.1];
      }
      AllFilled(bucket, start, recvData, min, size);
    }

    /** The buckets are those of the previous generation, resized; on the first one they are empty.
        The division fails when the width is cut to zero. */
    method GenHeatmap() returns (ok: bool)
      requires Valid() && recvData != [] && partition >= 1
      modifies `bucket
      ensures Valid()
      ensures ok <==> Width(max - min, partition) != 0
      ensures ok ==>
                var n, width := Buckets(max - min, partition), Width(max - min, partition);
                && InRange(recvData, min, width, n)
                && AddsIntervals(old(bucket), bucket, recvData, min, width, n)
      ensures ok && old(bucket) == [] ==> Total(bucket) == SumAll(recvData)
      ensures ok && Spread(max - min, partition) <= INT_MAX ==> |bucket| <= partition
    {
      var range := max - min;
      var size := Width(range, partition);
      if size == 0 {
        return false;
      }
      var n := Buckets(range, partition);
      if Spread(range, partition) <= INT_MAX {
        AtMostPartition(range, partition);
      }
      AllInRange(recvData, min, max, size);
      ghost var before := bucket;
      bucket := Resized(bucket, n);
      Fill(size);
      GenerationAdds(before, recvData, min, size, n);
      return true;
    }
  }

  /** Every sector has a bucket, and there are at most `partition` of them if the width fits an int. */
  lemma HeatmapIsBounded(data: seq<Sample>, min: nat, max: nat, partition: nat)
    requires Bounds(data, min, max) && data != [] && min <= max && partition >= 1
    requires Width(max - min, partition) > 0
    ensures InRange(data, min, Width(max - min, partition), Buckets(max - min, partition))
    ensures Spread(max - min, partition) <= INT_MAX ==> 1 <= Buckets(max - min, partition) <= partition
  {
    if Spread(max - min, partition) <= INT_MAX {
      AtMostPartition(max - min, partition);
    }
    AllInRange(data, min, max, Width(max - min, partition));
  }

  /** It is exact, bucket by bucket and in total. */
  lemma HeatmapIsExact(data: seq<Sample>, min: nat, width: nat, n: nat)
    requires width > 0 && InRange(data, min, width, n)
    ensures var filled := Filled(Zeros(n), data, min, width);
            && Total(filled) == SumAll(data)
            && forall b :: 0 <= b < n ==> filled[b] == SumIn(data, min + b * width, min + b * width + width)
  {
    FillConserves(Zeros(n), data, min, width);
    TotalOfZeros(n);
    forall b | 0 <= b < n
      ensures Filled(Zeros(n), data, min, width)[b] == SumIn(data, min + b * width, min + b * width + width)
    {
      BucketIsInterval(Zeros(n), data, min, width, b);
    }
  }

  /** One heat map per disk, made when the disk is first seen. */
  class HeatmapCollector {
    const par: nat
    var collector: map<string, Heatmap>

    ghost predicate Valid()
      reads this, collector.Values
    {
      && (forall disk :: disk in collector ==> collector[disk].Valid())
      && forall a, b :: a in collector && b in collector && a != b ==> collector[a] != collector[b]
    }

    /** What was committed for a disk. */
    ghost function Of(disk: string): seq<Sample>
      reads this, collector.Values
    {
      if disk in collector then collector[disk].recvData else []
    }

    constructor (acc: nat)
      ensures Valid() && forall d :: Of(d) == []
    {
      par := acc;
      collector := map[];
    }

    method Register(disk: string)
      requires Valid() && disk !in collector
      modifies `collector
      ensures Valid() && disk in collector && fresh(collector[disk])
      ensures collector.Keys == old(collector.Keys) + {disk}
      ensures forall d :: Of(d) == old(Of(d))
    {
      var heatmap := new Heatmap(par);
      collector := collector[disk := heatmap];
    }

    method Add(disk: string, sector: nat, stats: nat)
      requires Valid() && disk in collector
      modifies collector[disk]
      ensures Valid() && Of(disk) == old(Of(disk)) + [(sector, stats)]
      ensures forall d :: d != disk ==> Of(d) == old(Of(d))
    {
      collector[disk].Commit(sector, stats);
    }

    /** A sample reaches the map of its own disk and no other. */
    method Commit(disk: string, sector: nat, stats: nat)
      requires Valid()
      modifies this, collector.Values
      ensures Valid() && collector.Keys == old(collector.Keys) + {disk}
      ensures Of(disk) == old(Of(disk)) + [(sector, stats)]
      ensures forall d :: d != disk ==> Of(d) == old(Of(d))
    {
      if disk !in collector {
        Register(disk);
      }
      Add(disk, sector, stats);
    }
  }
}
