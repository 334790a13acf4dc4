/** The double-buffered digest: inserts collect in a buffer, a merge compresses the buffer into the
    inactive side, makes that side active and seeds the buffer with it for the next merge.

    Every method is proved to take exactly the step that module Digests reasons about. */
module Tdigest {
  import opened Arithmetic
  import opened Sorting
  import opened Centroids
  import opened Clustering
  import opened Compression
  import opened Merging
  import opened Digests
  import opened Quantile
  import opened Cdf

  /** The weight limit a pass works under, from its capacity, the total weight and the weight so far. */
  type Scale = (nat, nat, nat) -> real

  function Limit(scale: Scale, capacity: nat, total: nat): nat -> real {
    (w: nat) => scale(capacity, total, w)
  }

  /** Every run was measured against the scale at the weight before it: with two or more inputs it stays
      within, and with one more every run but the last would not. */
  ghost predicate RunsFitScale(scale: Scale, capacity: nat, total: nat, sorted: seq<Centroid>, cuts: seq<nat>)
    requires Cuts(|sorted|, cuts)
  {
    && (forall i :: 0 <= i < |cuts| - 1 ==>
          cuts[i + 1] - cuts[i] >= 2 ==>
            Weight(sorted[..cuts[i + 1]]) as real <= scale(capacity, total, Weight(sorted[..cuts[i]])))
    && (forall i :: 0 <= i < |cuts| - 2 ==>
          Weight(sorted[..cuts[i + 1] + 1]) as real > scale(capacity, total, Weight(sorted[..cuts[i]])))
  }

  /** The merged list: the input, sorted in the direction of the pass, cut into such runs, one centroid
      each, in ascending order. */
  ghost predicate MergedUnder(scale: Scale, capacity: nat, total: nat, input: seq<Centroid>, forward: bool,
                              merged: seq<Centroid>) {
    exists sorted, cuts, out ::
      && multiset(sorted) == multiset(input) && (if forward then Ascending(sorted) else Descending(sorted))
      && Cuts(|sorted|, cuts) && Summarises(sorted, cuts, out) && RunsFitScale(scale, capacity, total, sorted, cuts)
      && multiset(merged) == multiset(out) && Ascending(merged)
  }

  lemma GreedyFitsScale(scale: Scale, capacity: nat, total: nat, sorted: seq<Centroid>, cuts: seq<nat>)
    requires Cuts(|sorted|, cuts) && Greedy(sorted, cuts, Limit(scale, capacity, total))
    ensures RunsFitScale(scale, capacity, total, sorted, cuts)
  {
    forall i | 0 <= i < |cuts| - 1 && cuts[i + 1] - cuts[i] >= 2
      ensures Weight(sorted[..cuts[i + 1]]) as real <= scale(capacity, total, Weight(sorted[..cuts[i]]))
    {
      assert RunFits(sorted, cuts[i], cuts[i + 1], Limit(scale, capacity, total));
    }
    forall i | 0 <= i < |cuts| - 2
      ensures Weight(sorted[..cuts[i + 1] + 1]) as real > scale(capacity, total, Weight(sorted[..cuts[i]]))
    {
      assert cuts[i + 1] < cuts[i + 2] <= |sorted|;
      assert RunIsFull(sorted, cuts[i], cuts[i + 1], Limit(scale, capacity, total));
    }
  }

  lemma MergeFitsScale(scale: Scale, capacity: nat, total: nat, input: seq<Centroid>, forward: bool,
                       sorted: seq<Centroid>, cuts: seq<nat>, out: seq<Centroid>, merged: seq<Centroid>)
    requires IsMergeOf(input, forward, Limit(scale, capacity, total), sorted, cuts, out, merged)
    ensures MergedUnder(scale, capacity, total, input, forward, merged)
  {
    GreedyFitsScale(scale, capacity, total, sorted, cuts);
  }

  /** From some capacity on, every limit the scale function gives is tapered. */
  ghost predicate Tapers(scale: Scale, size: nat) {
    forall capacity, total :: size <= capacity && 0 < total <= UINT_MAX ==>
        Tapered(Limit(scale, capacity, total), total)
  }

  lemma ScalePermits(scale: Scale, size: nat, capacity: nat, total: nat)
    requires size <= capacity && total <= UINT_MAX
    ensures Permits(Tapers(scale, size), Limit(scale, capacity, total), total)
  {
  }

  /** Sorts in the direction of the pass; `low` and `high` are the two ends of the sorted list. */
  method SortForPass(input: seq<Centroid>, forward: bool)
    returns (inputs: seq<Centroid>, low: Centroid, high: Centroid)
    requires input != [] && Sound(input)
    ensures multiset(inputs) == multiset(input) && inputs != [] && Sound(inputs)
    ensures if forward then Ascending(inputs) else Descending(inputs)
    ensures low == if forward then inputs[0] else inputs[|inputs| - 1]
    ensures high == if forward then inputs[|inputs| - 1] else inputs[0]
  {
    if forward {
      inputs := SortBy(input, ByMean);
      Rearranged(inputs, input);
      SortedAscending(inputs);
      low, high := inputs[0], inputs[|inputs| - 1];
    } else {
      inputs := SortBy(input, ByMeanDown);
      Rearranged(inputs, input);
      SortedDescending(inputs);
      low, high := inputs[|inputs| - 1], inputs[0];
    }
  }

  /** Sorts the input in the direction of the pass, compresses it into an empty buffer and leaves
      that buffer ascending; also returns the two ends of the sorted input. */
  method CompressSorted(into: DigestBuffer, input: seq<Centroid>, forward: bool, limit: nat -> real)
    returns (low: Centroid, high: Centroid, ghost sorted: seq<Centroid>, ghost cuts: seq<nat>, ghost out: seq<Centroid>)
    requires into.Valid() && into.values == [] && into.totalWeight == 0
    requires input != [] && Sound(input)
    modifies into
    ensures into.Valid() && into.totalWeight == Weight(into.values) == Weight(input)
    ensures IsMergeOf(input, forward, limit, sorted, cuts, out, into.values)
    ensures |into.values| <= |input| && Sound(into.values)
    ensures sorted != []
    ensures low == if forward then sorted[0] else sorted[|sorted| - 1]
    ensures high == if forward then sorted[|sorted| - 1] else sorted[0]
  {
    var inputs;
    inputs, low, high := SortForPass(input, forward);
    SumsOfRearranged(inputs, input);
    cuts := Compression.Compress(into, inputs, limit);
    sorted, out := inputs, into.values;
    if !forward {
      into.values := SortBy(into.values, ByMean);
      Rearranged(into.values, out);
    }
    MergeDone(input, forward, limit, sorted, cuts, out, into.values);
  }

  lemma StepTaken(st: Digest, st': Digest, limit: nat -> real,
                  sorted: seq<Centroid>, cuts: seq<nat>, out: seq<Centroid>)
    requires st.buffered != [] && MergesBy(st, st', limit, sorted, cuts, out)
    ensures MergesTo(st, st', limit)
  {
  }

  lemma TotalOfBuffer(active: seq<Centroid>, buffered: seq<Centroid>)
    requires active <= buffered
    ensures Weight(buffered) == Weight(active) + Weight(buffered[|active|..])
  {
    assert buffered == active + buffered[|active|..];
    SumsOfConcat(active, buffered[|active|..]);
  }

  lemma PendingGrows(active: seq<Centroid>, buffered: seq<Centroid>, c: Centroid)
    requires active <= buffered
    ensures active <= buffered + [c]
    ensures Weight((buffered + [c])[|active|..]) == Weight(buffered[|active|..]) + c.weight
    ensures Weight(buffered + [c]) == Weight(buffered) + c.weight
    ensures Sound(buffered) && 1 <= c.weight && c.mean <= UINT_MAX ==> Sound(buffered + [c])
  {
    assert (buffered + [c])[|active|..] == buffered[|active|..] + [c];
    SumsOfConcat(buffered[|active|..], [c]);
    SumsOfConcat(buffered, [c]);
    SumsOfOne(c);
  }

  lemma FirstWeighs(values: seq<Centroid>)
    requires values != [] && values[0].weight >= 1
    ensures Weight(values) > 0
  {
    WeightOfPrefix(values, 0);
  }

  lemma InsertTaken(st: Digest, c: Centroid, full: bool, limit: nat -> real, mid: Digest, st': Digest)
    requires mid == st.(buffered := st.buffered + [c])
    requires if full then MergesTo(mid, st', limit) else st' == mid
    ensures InsertsTo(st, c, full, limit, st')
  {
  }

  lemma Fed(st: Digest, cs: seq<Centroid>, i: nat, mid: Digest, full: bool, limit: nat -> real, st': Digest,
            tapered: bool)
    requires i < |cs| && FedTo(st, cs[..i], mid, tapered) && InsertsTo(mid, cs[i], full, limit, st')
    requires Permits(tapered, limit, Weight(mid.buffered) + cs[i].weight)
    ensures FedTo(st, cs[..i + 1], st', tapered)
  {
    assert cs[..i + 1][..i] == cs[..i] && cs[..i + 1][i] == cs[i];
  }

  class Tdigest {
    const one: DigestBuffer
    const two: DigestBuffer
    const buffer: DigestBuffer
    const scale: Scale
    var active: DigestBuffer
    var minVal: nat
    var maxVal: nat
    var runForward: bool

    ghost predicate Wired()
      reads `active
    {
      && one != two && one != buffer && two != buffer && one.reserved == two.reserved
      && (active == one || active == two)
    }

    ghost function Objects(): set<object> {
      {this, one, two, buffer}
    }

    function Inactive(): DigestBuffer
      reads `active
    {
      if active == one then two else one
    }

    /** The other side is empty, and the two running totals split the buffer's weight into what the
        active digest holds and what is pending. */
    ghost predicate Valid()
      reads `active, one, two, buffer
    {
      && Wired()
      && one.Valid() && two.Valid() && buffer.Valid()
      && Inactive().values == [] && Inactive().totalWeight == 0
      && active.values <= buffer.values
      && active.totalWeight == Weight(active.values)
      && buffer.totalWeight == Weight(buffer.values[|active.values|..])
      && Sound(buffer.values) && Weight(buffer.values) <= UINT_MAX
    }

    ghost function State(): Digest
      reads this, active, buffer
    {
      Digest(active.values, buffer.values, minVal, maxVal, runForward)
    }

    /** The limit the next merge will use when the total weight is `total`. */
    ghost function NextLimit(total: nat): nat -> real
      reads `active, one, two
    {
      Limit(scale, Inactive().capacity, total)
    }

    constructor (size: nat, scale: Scale)
      ensures Valid() && fresh(Objects()) && State() == Cleared(true) && one.reserved == size
    {
      one := new DigestBuffer(size);
      two := new DigestBuffer(size);
      buffer := new DigestBuffer(size * 2);
      this.scale := scale;
      active := one;
      minVal, maxVal, runForward := UINT_MAX, 0, true;
    }

    function Size(): nat
      reads `active, active
    {
      active.totalWeight
    }

    method Quantile(p: real) returns (r: Quantity)
      requires Valid()
      ensures r == QuantileOf(active.values, Weight(active.values), minVal, maxVal, p)
    {
      if p < 0.0 || p > 100.0 {
        return OutOfRange;
      }
      var values, total := active.values, active.totalWeight;
      if values == [] {
        return Number(0.0);
      } else if |values| == 1 {
        return Number(values[0].mean as real);
      }
      IndexInRange(p, total);
      var index := Index(p, total);
      if index < 1 {
        return Number(minVal as real);
      }
      var first, last := values[0], values[|values| - 1];
      if first.weight > 1 && index < first.weight / 2 {
        return Number(MinTail(minVal, first, index));
      }
      if index + 1 > total {
        return Number(maxVal as real);
      }
      if last.weight > 1 && total - index <= last.weight / 2 {
        return MaxTail(maxVal, last, total - index - 1);
      }
      var quantile := SearchPairs(values, first.weight / 2, index);
      return Number(quantile as real);
    }

    method CumulativeDistribution(x: nat) returns (r: real)
      requires Valid()
      ensures |active.values| >= 2 ==> Weight(active.values) > 0
      ensures r == CdfOf(active.values, Weight(active.values), minVal, maxVal, x)
    {
      var values, total := active.values, active.totalWeight;
      if values == [] {
        return 1.0;
      } else if |values| == 1 {
        return if x < minVal then 0.0 else if x > maxVal then 1.0 else 0.5;
      }
      assert values[0] in buffer.values && values <= buffer.values;
      FirstWeighs(values);
      if x < values[0].mean {
        return LowTail(values[0], minVal, total, x);
      }
      if x > values[|values| - 1].mean {
        return HighTail(values[|values| - 1], maxVal, total, x);
      }
      r := SearchCdf(values, total, x);
    }

    /** Makes the freshly filled side active, seeds the buffer with it and empties the other side. */
    method Adopt()
      requires Wired() && one.Valid() && two.Valid() && buffer.Valid()
      requires |Inactive().values| <= |buffer.values|
      modifies `active, one, two, buffer
      ensures active == old(Inactive()) && Wired() && one.Valid() && two.Valid() && buffer.Valid()
      ensures active.values == old(Inactive().values) && active.totalWeight == old(Inactive().totalWeight)
      ensures Inactive().values == [] && Inactive().totalWeight == 0
      ensures buffer.values == active.values && buffer.totalWeight == 0
    {
      var inactive := Inactive();
      buffer.Reset();
      buffer.values := inactive.values;
      var newInactive := active;
      active := inactive;
      newInactive.Reset();
    }

    /** Compresses the buffer into the inactive side and adopts it. */
    method Rotate()
      returns (low: Centroid, high: Centroid, ghost sorted: seq<Centroid>, ghost cuts: seq<nat>,
          ghost out: seq<Centroid>)
      requires Valid() && buffer.values != []
      modifies `active, one, two, buffer
      ensures Valid() && buffer.values == active.values && buffer.totalWeight == 0
      ensures Weight(buffer.values) == old(Weight(buffer.values)) == Size()
      ensures IsMergeOf(old(buffer.values), runForward, old(NextLimit(Weight(buffer.values))), sorted, cuts, out,
                active.values)
      ensures sorted != []
      ensures low == if runForward then sorted[0] else sorted[|sorted| - 1]
      ensures high == if runForward then sorted[|sorted| - 1] else sorted[0]
      ensures MergedUnder(scale, old(Inactive().capacity), old(Weight(buffer.values)), old(buffer.values), runForward,
                          active.values)
    {
      TotalOfBuffer(active.values, buffer.values);
      var newTotalWeight := buffer.totalWeight + active.totalWeight;
      var limit := Limit(scale, Inactive().capacity, newTotalWeight);
      assert limit == NextLimit(Weight(buffer.values));
      ghost var capacity, input := Inactive().capacity, buffer.values;
      low, high, sorted, cuts, out := CompressSorted(Inactive(), buffer.values, runForward, limit);
      MergeFitsScale(scale, capacity, newTotalWeight, input, runForward, sorted, cuts, out, Inactive().values);
      Adopt();
    }

    method Merge()
      requires Valid()
      modifies this, one, two, buffer
      ensures Valid() && MergesTo(old(State()), State(), old(NextLimit(Weight(buffer.values))))
      ensures Weight(buffer.values) == old(Weight(buffer.values)) == Size() && buffer.totalWeight == 0
      ensures old(buffer.values) != [] ==>
                && runForward == !old(runForward)
                && MergedUnder(scale, old(Inactive().capacity), old(Weight(buffer.values)), old(buffer.values),
                               old(runForward), active.values)
    {
      if buffer.values == [] {
        return;
      }
      ghost var before, limit := State(), NextLimit(Weight(buffer.values));
      var low, high;
      ghost var sorted, cuts, out;
      low, high, sorted, cuts, out := Rotate();
      minVal, maxVal, runForward := LowEnd(minVal, low), HighEnd(maxVal, high), !runForward;
      StepTaken(before, State(), limit, sorted, cuts, out);
    }

    method Append(c: Centroid) returns (full: bool)
      requires Valid() && Sound([c]) && Weight(buffer.values) + c.weight <= UINT_MAX
      modifies buffer
      ensures Valid() && State() == old(State()).(buffered := old(buffer.values) + [c])
      ensures Weight(buffer.values) == old(Weight(buffer.values)) + c.weight
      ensures |old(buffer.values)| < old(buffer.capacity) ==>
                (full <==> |old(buffer.values)| + 1 == old(buffer.capacity))
    {
      assert c in [c];
      PendingGrows(active.values, buffer.values, c);
      full := buffer.Insert(c.mean, c.weight);
    }

    /** A point, or a value of any weight; a buffer that is full afterwards is merged. */
    method Insert(value: nat, weight: nat)
      returns (full: bool, ghost limit: nat -> real)
      requires Valid() && weight >= 1 && value <= UINT_MAX && Weight(buffer.values) + weight <= UINT_MAX
      modifies this, one, two, buffer
      ensures Valid() && limit == old(NextLimit(Weight(buffer.values) + weight))
      ensures InsertsTo(old(State()), Centroid(value, weight), full, limit, State())
      ensures Permits(Tapers(scale, one.reserved), limit, old(Weight(buffer.values)) + weight)
      ensures Weight(buffer.values) == old(Weight(buffer.values)) + weight
      ensures |old(buffer.values)| < old(buffer.capacity) ==>
                (full <==> |old(buffer.values)| + 1 == old(buffer.capacity))
    {
      ghost var before := State();
      full := Append(Centroid(value, weight));
      limit := NextLimit(Weight(buffer.values));
      ScalePermits(scale, one.reserved, Inactive().capacity, Weight(buffer.values));
      ghost var mid := State();
      if full {
        Merge();
      }
      InsertTaken(before, Centroid(value, weight), full, limit, mid, State());
    }

    method Feed(values: seq<Centroid>)
      requires Valid() && Sound(values) && Weight(buffer.values) + Weight(values) <= UINT_MAX
      modifies this, one, two, buffer
      ensures Valid() && FedTo(old(State()), values, State(), Tapers(scale, one.reserved))
    {
      ghost var before := State();
      for i := 0 to |values|
        invariant Valid() && FedTo(before, values[..i], State(), Tapers(scale, one.reserved))
        invariant Weight(buffer.values) == Weight(before.buffered) + Weight(values[..i])
      {
        WeightOfPrefix(values, i);
        assert values[i] in values;
        ghost var mid := State();
        var full; ghost var limit;
        full, limit := Insert(values[i].mean, values[i].weight);
        Fed(before, values, i, mid, full, limit, State(), Tapers(scale, one.reserved));
      }
      assert values[..|values|] == values;
    }

    /** Inserts every centroid of another digest, then merges. What the other digest has buffered but
        not merged is left out: the caller is expected to have merged it. */
    method InsertDigest(src: Tdigest)
      requires Valid() && src.Valid() && Objects() !! src.Objects()
      requires Weight(buffer.values) + src.Size() <= UINT_MAX
      modifies this, one, two, buffer
      ensures Valid() && AbsorbsTo(old(State()), old(src.State()), State(), Tapers(scale, one.reserved))
    {
      maxVal := Max(maxVal, src.maxVal);
      minVal := Min(minVal, src.minVal);
      assert forall c :: c in src.active.values ==> c in src.buffer.values;
      ghost var wide, from := State(), src.State();
      Feed(src.active.values);
      ghost var fed, limit := State(), NextLimit(Weight(buffer.values));
      ScalePermits(scale, one.reserved, Inactive().capacity, Weight(buffer.values));
      Merge();
      assert FedTo(wide, from.active, fed, Tapers(scale, one.reserved)) && MergesTo(fed, State(), limit)
          && Permits(Tapers(scale, one.reserved), limit, Weight(fed.buffered));
    }

    method Reset()
      requires Valid()
      modifies this, one, two, buffer
      ensures Valid() && State() == Cleared(old(runForward)) && active == one
    {
      one.Reset();
      two.Reset();
      buffer.Reset();
      active := one;
      minVal, maxVal := UINT_MAX, 0;
    }
  }
}
