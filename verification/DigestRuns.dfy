/** Whole runs of digest operations: what every one of them keeps. */
module DigestRuns {
  import opened Arithmetic
  import opened Centroids
  import opened Clustering
  import opened Digests
  import opened DigestPoints
  import opened DigestEnds
  import opened DigestTops

  /** `points` names the points that an absorbed digest was built from. */
  datatype Op = Insert(c: Centroid) | Compress | Clear | Absorb(src: Digest, points: multiset<nat>)

  ghost predicate Step(st: Digest, op: Op, st': Digest, tapered: bool) {
    match op
    case Insert(c) =>
      exists full, limit ::
        InsertsTo(st, c, full, limit, st') && Permits(tapered, limit, Weight(st.buffered) + c.weight)
    case Compress => exists limit :: MergesTo(st, st', limit) && Permits(tapered, limit, Weight(st.buffered))
    case Clear => st' == Cleared(st.forward)
    case Absorb(src, _) => AbsorbsTo(st, src, st', tapered)
  }

  /** Inserted weights are positive and absorbed digests are well formed. */
  ghost predicate Legal(op: Op) {
    match op
    case Insert(c) => Sound([c])
    case Absorb(src, _) => WellFormed(src)
    case _ => true
  }

  /** Only points of weight one, and digests built from such points. */
  ghost predicate OfPoints(op: Op) {
    match op
    case Insert(c) => c.weight == 1
    case Absorb(src, points) => exists pending :: Accounts(src, points, pending)
    case _ => true
  }

  /** The extremes are the outermost means, and a maximum attained once is a centroid of its own. */
  ghost predicate Ended(st: Digest, absorbed: multiset<nat>) {
    Anchored(st, absorbed) && Crowned(st, absorbed)
  }

  ghost predicate AbsorbsEnded(op: Op) {
    op.Absorb? ==> Ended(op.src, op.points)
  }

  ghost predicate OverPoints(ops: seq<Op>) {
    forall op :: op in ops ==> OfPoints(op)
  }

  ghost predicate OverEnded(ops: seq<Op>) {
    forall op :: op in ops ==> OfPoints(op) && AbsorbsEnded(op)
  }

  ghost predicate StepAt(ops: seq<Op>, states: seq<Digest>, tapered: bool, i: nat) {
    i < |ops| && i + 1 < |states| && Legal(ops[i]) && Step(states[i], ops[i], states[i + 1], tapered)
  }

  ghost predicate IsRun(ops: seq<Op>, states: seq<Digest>, tapered: bool) {
    && |states| == |ops| + 1
    && states[0] == Cleared(true)
    && forall i :: 0 <= i < |ops| ==> StepAt(ops, states, tapered, i)
  }

  /** All weight inserted since the last reset. */
  ghost function WeightSinceReset(ops: seq<Op>): nat {
    if ops == [] then 0
    else
      var before := WeightSinceReset(ops[..|ops| - 1]);
      match ops[|ops| - 1]
      case Insert(c) => before + c.weight
      case Compress => before
      case Clear => 0
      case Absorb(src, _) => before + Weight(src.active)
  }

  ghost function PointsAfter(before: multiset<nat>, op: Op): multiset<nat> {
    match op
    case Insert(c) => before + multiset{c.mean}
    case Compress => before
    case Clear => multiset{}
    case Absorb(_, points) => before + points
  }

  /** All points inserted since the last reset. */
  ghost function PointsSinceReset(ops: seq<Op>): multiset<nat> {
    if ops == [] then multiset{} else PointsAfter(PointsSinceReset(ops[..|ops| - 1]), ops[|ops| - 1])
  }

  ghost predicate Merged(ops: seq<Op>) {
    ops != [] && (ops[|ops| - 1].Compress? || ops[|ops| - 1].Absorb?)
  }

  lemma RunPrefix(ops: seq<Op>, states: seq<Digest>, tapered: bool)
    requires IsRun(ops, states, tapered) && ops != []
    ensures IsRun(ops[..|ops| - 1], states[..|ops|], tapered)
  {
    var before, known := ops[..|ops| - 1], states[..|ops|];
    forall i | 0 <= i < |before|
      ensures StepAt(before, known, tapered, i)
    {
      assert StepAt(ops, states, tapered, i);
    }
  }

  lemma StepKeeps(st: Digest, op: Op, st': Digest, tapered: bool)
    requires WellFormed(st) && Legal(op) && Step(st, op, st', tapered)
    ensures WellFormed(st')
    ensures op.Insert? ==> Weight(st'.buffered) == Weight(st.buffered) + op.c.weight
    ensures op.Compress? ==> Weight(st'.buffered) == Weight(st.buffered)
    ensures op.Clear? ==> Weight(st'.buffered) == 0
    ensures op.Absorb? ==> Weight(st'.buffered) == Weight(st.buffered) + Weight(op.src.active)
    ensures op.Compress? || op.Absorb? ==> st'.buffered == st'.active
  {
    match op
    case Insert(c) =>
      var full, limit :| InsertsTo(st, c, full, limit, st');
      InsertKeeps(st, c, full, limit, st');
    case Compress =>
      var limit :| MergesTo(st, st', limit);
      MergeKeeps(st, st', limit);
    case Clear =>
    case Absorb(src, _) =>
      AbsorbKeeps(st, src, st', tapered);
  }

  lemma LastStepKeeps(ops: seq<Op>, states: seq<Digest>, tapered: bool)
    requires IsRun(ops, states, tapered) && ops != [] && WellFormed(states[|ops| - 1])
    requires Weight(states[|ops| - 1].buffered) == WeightSinceReset(ops[..|ops| - 1])
    ensures WellFormed(states[|ops|]) && Weight(states[|ops|].buffered) == WeightSinceReset(ops)
    ensures Merged(ops) ==> states[|ops|].buffered == states[|ops|].active
  {
    assert StepAt(ops, states, tapered, |ops| - 1);
    StepKeeps(states[|ops| - 1], ops[|ops| - 1], states[|ops|], tapered);
  }

  /** No run of inserts, merges, digest inserts and resets loses or double counts any weight, and the
      buffer always starts with the ascending active digest. */
  lemma {:induction false} RunKeepsWeight(ops: seq<Op>, states: seq<Digest>, tapered: bool)
    requires IsRun(ops, states, tapered)
    ensures WellFormed(states[|ops|]) && Weight(states[|ops|].buffered) == WeightSinceReset(ops)
    ensures Merged(ops) ==> states[|ops|].buffered == states[|ops|].active
    ensures Merged(ops) ==> Weight(states[|ops|].active) == WeightSinceReset(ops)
    decreases |ops|
  {
    if ops == [] {
    } else {
      RunPrefix(ops, states, tapered);
      RunKeepsWeight(ops[..|ops| - 1], states[..|ops|], tapered);
      LastStepKeeps(ops, states, tapered);
    }
  }

  lemma MergeEnds(st: Digest, st': Digest, limit: nat -> real, absorbed: multiset<nat>, unseen: multiset<nat>)
    requires WellFormed(st) && Accounts(st, absorbed, unseen) && Ended(st, absorbed)
    requires MergesTo(st, st', limit) && Permits(true, limit, Weight(st.buffered))
    ensures Ended(st', absorbed + unseen)
  {
    if absorbed != multiset{} {
      AnchoredReaches(st, absorbed);
    }
    MergeAnchors(st, st', limit, absorbed, unseen);
    MergeCrowns(st, st', limit, absorbed, unseen);
  }

  lemma InsertEnds(st: Digest, value: nat, full: bool, limit: nat -> real, st': Digest,
                   absorbed: multiset<nat>, unseen: multiset<nat>)
    requires WellFormed(st) && Accounts(st, absorbed, unseen) && Ended(st, absorbed) && value <= UINT_MAX
    requires InsertsTo(st, Centroid(value, 1), full, limit, st') && Permits(true, limit, Weight(st.buffered) + 1)
    ensures Ended(st', if full then absorbed + (unseen + multiset{value}) else absorbed)
  {
    var mid := st.(buffered := st.buffered + [Centroid(value, 1)]);
    PointAccounts(st, value, absorbed, unseen);
    InsertKeeps(st, Centroid(value, 1), false, limit, mid);
    if full {
      MergeEnds(mid, st', limit, absorbed, unseen + multiset{value});
    }
  }

  lemma InsertStep(st: Digest, value: nat, st': Digest, tapered: bool, absorbed: multiset<nat>, unseen: multiset<nat>)
    returns (absorbed': multiset<nat>, unseen': multiset<nat>)
    requires WellFormed(st) && Accounts(st, absorbed, unseen) && value <= UINT_MAX
    requires Step(st, Insert(Centroid(value, 1)), st', tapered)
    ensures Accounts(st', absorbed', unseen') && absorbed' + unseen' == absorbed + unseen + multiset{value}
    ensures tapered && Ended(st, absorbed) ==> Ended(st', absorbed')
  {
    var full, limit :| InsertsTo(st, Centroid(value, 1), full, limit, st')
        && Permits(tapered, limit, Weight(st.buffered) + 1);
    absorbed', unseen' := InsertAccounts(st, value, full, limit, st', absorbed, unseen);
    if tapered && Ended(st, absorbed) {
      InsertEnds(st, value, full, limit, st', absorbed, unseen);
    }
  }

  lemma CompressStep(st: Digest, st': Digest, tapered: bool, absorbed: multiset<nat>, unseen: multiset<nat>)
    requires WellFormed(st) && Accounts(st, absorbed, unseen) && Step(st, Compress, st', tapered)
    ensures Accounts(st', absorbed + unseen, multiset{})
    ensures tapered && Ended(st, absorbed) ==> Ended(st', absorbed + unseen)
  {
    var limit :| MergesTo(st, st', limit) && Permits(tapered, limit, Weight(st.buffered));
    MergeAccounts(st, st', limit, absorbed, unseen);
    if tapered && Ended(st, absorbed) {
      MergeEnds(st, st', limit, absorbed, unseen);
    }
  }

  lemma AbsorbStep(st: Digest, src: Digest, points: multiset<nat>, st': Digest, tapered: bool,
                   absorbed: multiset<nat>, unseen: multiset<nat>)
    requires WellFormed(st) && Accounts(st, absorbed, unseen) && AbsorbsTo(st, src, st', tapered)
    requires WellFormed(src) && exists pending :: Accounts(src, points, pending)
    ensures Accounts(st', absorbed + unseen + points, multiset{})
    ensures tapered && Ended(st, absorbed) && Ended(src, points) ==> Ended(st', absorbed + unseen + points)
  {
    var pending :| Accounts(src, points, pending);
    AbsorbAccounts(st, src, st', tapered, absorbed, unseen, points, pending);
    if tapered && Ended(st, absorbed) && Ended(src, points) {
      AbsorbAnchors(st, src, st', absorbed, unseen, points, pending);
      AbsorbCrowns(st, src, st', absorbed, unseen, points, pending);
    }
  }

  lemma ClearStep(forward: bool)
    ensures Accounts(Cleared(forward), multiset{}, multiset{}) && Ended(Cleared(forward), multiset{})
  {
  }

  lemma InsertedPoint(op: Op)
    requires op.Insert? && OfPoints(op) && Legal(op)
    ensures op.c.mean <= UINT_MAX && op == Insert(Centroid(op.c.mean, 1))
  {
    assert op.c in [op.c];
  }

  lemma StepAccounts(st: Digest, op: Op, st': Digest, tapered: bool, absorbed: multiset<nat>, unseen: multiset<nat>)
    returns (absorbed': multiset<nat>, unseen': multiset<nat>)
    requires WellFormed(st) && Accounts(st, absorbed, unseen)
    requires OfPoints(op) && Legal(op) && Step(st, op, st', tapered)
    ensures Accounts(st', absorbed', unseen')
    ensures absorbed' + unseen' == PointsAfter(absorbed + unseen, op)
    ensures op.Compress? || op.Absorb? ==> unseen' == multiset{}
    ensures tapered && AbsorbsEnded(op) && Ended(st, absorbed) ==> Ended(st', absorbed')
  {
    absorbed', unseen' := PointsAfter(absorbed + unseen, op), multiset{};
    match op
    case Insert(c) =>
      InsertedPoint(op);
      absorbed', unseen' := InsertStep(st, c.mean, st', tapered, absorbed, unseen);
    case Compress =>
      CompressStep(st, st', tapered, absorbed, unseen);
    case Clear =>
      ClearStep(st.forward);
    case Absorb(src, points) =>
      AbsorbStep(st, src, points, st', tapered, absorbed, unseen);
  }

  lemma LastStepAccounts(ops: seq<Op>, states: seq<Digest>, tapered: bool, absorbed: multiset<nat>,
                         unseen: multiset<nat>)
    returns (absorbed': multiset<nat>, unseen': multiset<nat>)
    requires IsRun(ops, states, tapered) && ops != [] && OfPoints(ops[|ops| - 1])
    requires WellFormed(states[|ops| - 1]) && Accounts(states[|ops| - 1], absorbed, unseen)
    requires absorbed + unseen == PointsSinceReset(ops[..|ops| - 1])
    ensures Accounts(states[|ops|], absorbed', unseen') && absorbed' + unseen' == PointsSinceReset(ops)
    ensures Merged(ops) ==> unseen' == multiset{}
    ensures tapered && AbsorbsEnded(ops[|ops| - 1]) && Ended(states[|ops| - 1], absorbed) ==>
              Ended(states[|ops|], absorbed')
  {
    assert StepAt(ops, states, tapered, |ops| - 1);
    absorbed', unseen' := StepAccounts(states[|ops| - 1], ops[|ops| - 1], states[|ops|], tapered, absorbed, unseen);
  }

  /** In every run over points each point since the last reset is accounted for exactly once; under
      tapered limits the digest is ended. */
  lemma {:induction false} RunAccounts(ops: seq<Op>, states: seq<Digest>, tapered: bool)
    returns (absorbed: multiset<nat>, unseen: multiset<nat>)
    requires IsRun(ops, states, tapered) && OverPoints(ops)
    ensures Accounts(states[|ops|], absorbed, unseen) && absorbed + unseen == PointsSinceReset(ops)
    ensures Merged(ops) ==> unseen == multiset{}
    ensures tapered && OverEnded(ops) ==> Ended(states[|ops|], absorbed)
    decreases |ops|
  {
    absorbed, unseen := multiset{}, multiset{};
    if ops == [] {
    } else {
      var n := |ops| - 1;
      RunPrefix(ops, states, tapered);
      absorbed, unseen := RunAccounts(ops[..n], states[..n + 1], tapered);
      RunKeepsWeight(ops[..n], states[..n + 1], tapered);
      absorbed, unseen := LastStepAccounts(ops, states, tapered, absorbed, unseen);
    }
  }

  /** In every run over points, the extremes are exact after every merge, in either direction. */
  lemma RunKeepsExtremes(ops: seq<Op>, states: seq<Digest>, tapered: bool)
    requires IsRun(ops, states, tapered) && OverPoints(ops) && Merged(ops)
    ensures IsMin(states[|ops|].lo, PointsSinceReset(ops)) && IsMax(states[|ops|].hi, PointsSinceReset(ops))
    ensures Within(states[|ops|].active, states[|ops|].lo, states[|ops|].hi)
    ensures Weight(states[|ops|].active) == |PointsSinceReset(ops)|
    ensures LightIn(states[|ops|].active, PointsSinceReset(ops))
  {
    var absorbed, unseen := RunAccounts(ops, states, tapered);
    assert absorbed == absorbed + unseen;
  }

  /** Under tapered limits the outermost means are the exact extremes, and if the maximum was inserted
      once since the last reset, the last centroid is that point alone. */
  lemma TaperedRunEnds(ops: seq<Op>, states: seq<Digest>)
    requires IsRun(ops, states, true) && OverEnded(ops) && Merged(ops)
    requires PointsSinceReset(ops) != multiset{}
    ensures var st := states[|ops|];
            && st.active != [] && st.active[0].mean == st.lo && st.active[|st.active| - 1].mean == st.hi
            && (PointsSinceReset(ops)[st.hi] == 1 ==> st.active[|st.active| - 1] == Centroid(st.hi, 1))
  {
    var st := states[|ops|];
    var absorbed, unseen := RunAccounts(ops, states, true);
    RunKeepsWeight(ops, states, true);
    assert absorbed == absorbed + unseen;
    if absorbed[st.hi] == 1 {
      assert IsSoleMax(st.hi, absorbed);
      LastIsTop(st.active, st.hi);
    }
  }
}
