/** What holds in every run of the block probes: which fields a record can contain, where requests
    go, and when its timestamps were taken. */
module BlockRuns {
  import opened BpfMaps
  import opened BlockProbes

  ghost function At(run: seq<Step>, k: nat): State
    requires k <= |run|
  {
    if k == 0 then START else Next(At(run, k - 1), run[k - 1])
  }

  ghost predicate Ticks(run: seq<Step>) {
    forall i, j :: 0 <= i < j < |run| ==> run[i].time < run[j].time
  }

  predicate TracksRq(step: Step, rq: nat) {
    step.probe.RqTrack? && step.probe.rq == rq && step.passes
  }

  predicate SubmitsBio(step: Step, bio: nat) {
    step.probe.Submit? && step.probe.bio == bio && step.passes
  }

  /** Step j is the last one before k that tracked the request. */
  ghost predicate LatestTrack(run: seq<Step>, j: nat, k: nat, rq: nat) {
    && j < k <= |run| && TracksRq(run[j], rq)
    && forall i :: j < i < k ==> !TracksRq(run[i], rq)
  }

  ghost predicate LatestSubmit(run: seq<Step>, j: nat, k: nat, bio: nat) {
    && j < k <= |run| && SubmitsBio(run[j], bio)
    && forall i :: j < i < k ==> !SubmitsBio(run[i], bio)
  }

  predicate Stamps(step: Step, rq: nat) {
    !step.probe.Submit? && !step.probe.RqTrack? && step.probe.rq == rq
  }

  /** The steps in [lo, hi) that stamp the request. */
  ghost function StepsOf(run: seq<Step>, lo: nat, hi: nat, rq: nat): seq<Step>
    requires lo <= hi <= |run|
  {
    if lo == hi then []
    else StepsOf(run, lo, hi - 1, rq) + (if Stamps(run[hi - 1], rq) then [run[hi - 1]] else [])
  }

  ghost function Replay(t: Trace, steps: seq<Step>): Trace {
    if steps == [] then t
    else
      var last := steps[|steps| - 1];
      Stamped(Replay(t, steps[..|steps| - 1]), last.time, last.probe)
  }

  /** The record a tracking probe creates. */
  function Fresh(bioEnter: nat, track: Step): Trace
    requires track.probe.RqTrack?
  {
    NewTrace(bioEnter, track.time, track.probe.write, track.probe.common)
  }

  // --- Generations -------------------------------------------------------------------------------

  lemma {:induction false} BioIsLatest(run: seq<Step>, k: nat, bio: nat)
    requires k <= |run| && bio in At(run, k).bioPass
    ensures exists i: nat :: LatestSubmit(run, i, k, bio) && At(run, k).bioPass[bio] == run[i].time
  {
    var before := At(run, k - 1);
    if SubmitsBio(run[k - 1], bio) && At(run, k).bioPass[bio] == run[k - 1].time {
      assert LatestSubmit(run, k - 1, k, bio);
    } else {
      BioIsLatest(run, k - 1, bio);
      var i: nat :| LatestSubmit(run, i, k - 1, bio) && before.bioPass[bio] == run[i].time;
      assert LatestSubmit(run, i, k, bio);
    }
  }

  /** A cached record holds the latest submission of its bio, and what its own request's probes wrote
      since the request was last tracked. Nothing else. */
  ghost predicate FromGeneration(run: seq<Step>, j: nat, i: nat, k: nat, rq: nat, t: Trace) {
    && LatestTrack(run, j, k, rq)
    && LatestSubmit(run, i, j, run[j].probe.bio)
    && t == Replay(Fresh(run[i].time, run[j]), StepsOf(run, j + 1, k, rq))
  }

  /** A cached record was just created by a tracking probe, or was there and at most stamped. */
  lemma EntryAfter(s: State, step: Step, rq: nat)
    requires rq in Next(s, step).rqs
    ensures TracksRq(step, rq) ==>
              && step.probe.bio in s.bioPass
              && Next(s, step).rqs[rq] == Fresh(s.bioPass[step.probe.bio], step)
    ensures !TracksRq(step, rq) ==>
              && rq in s.rqs
              && Next(s, step).rqs[rq] ==
                 if Stamps(step, rq) then Stamped(s.rqs[rq], step.time, step.probe) else s.rqs[rq]
  {
  }

  lemma ReplayStep(t: Trace, run: seq<Step>, lo: nat, hi: nat, rq: nat)
    requires lo < hi <= |run|
    ensures var before, last := Replay(t, StepsOf(run, lo, hi - 1, rq)), run[hi - 1];
            Replay(t, StepsOf(run, lo, hi, rq))
            == if Stamps(last, rq) then Stamped(before, last.time, last.probe) else before
  {
    var steps, last := StepsOf(run, lo, hi - 1, rq), run[hi - 1];
    assert (steps + [last])[..|steps|] == steps && steps + [] == steps;
  }

  lemma {:induction false} EntryFromGeneration(run: seq<Step>, k: nat, rq: nat) returns (j: nat, i: nat)
    requires k <= |run| && rq in At(run, k).rqs
    ensures FromGeneration(run, j, i, k, rq, At(run, k).rqs[rq])
  {
    var before, step := At(run, k - 1), run[k - 1];
    EntryAfter(before, step, rq);
    if TracksRq(step, rq) {
      j := k - 1;
      BioIsLatest(run, k - 1, step.probe.bio);
      i :| LatestSubmit(run, i, k - 1, step.probe.bio) && before.bioPass[step.probe.bio] == run[i].time;
    } else {
      j, i := EntryFromGeneration(run, k - 1, rq);
      ReplayStep(Fresh(run[i].time, run[j]), run, j + 1, k, rq);
    }
  }

  ghost predicate Emits(run: seq<Step>, b: nat, rq: nat) {
    b < |run| && run[b].probe.Account? && run[b].probe.reserved && run[b].probe.rq == rq && rq in At(run, b).rqs
  }

  ghost function Emitted(run: seq<Step>, b: nat, rq: nat): Trace
    requires Emits(run, b, rq)
  {
    At(run, b + 1).log[|At(run, b).log|].trace
  }

  /** Every emitted record is a replay of one generation of its request, whatever else ran, was
      reused, was full or failed to be reserved. */
  lemma GenerationIsolation(run: seq<Step>, b: nat, rq: nat) returns (j: nat, i: nat)
    requires Emits(run, b, rq)
    ensures At(run, b + 1).log == At(run, b).log + [RqTrace(Emitted(run, b, rq))]
    ensures FromGeneration(run, j, i, b + 1, rq, Emitted(run, b, rq))
  {
    j, i := EntryFromGeneration(run, b, rq);
    ReplayStep(Fresh(run[i].time, run[j]), run, j + 1, b + 1, rq);
  }

  lemma {:induction false} ReplayKeepsStart(t: Trace, steps: seq<Step>)
    requires forall s :: s in steps ==> !s.probe.Submit? && !s.probe.RqTrack?
    ensures Replay(t, steps).rqStart == t.rqStart && Replay(t, steps).bioEnter == t.bioEnter
  {
    if steps == [] {
    } else {
      ReplayKeepsStart(t, steps[..|steps| - 1]);
    }
  }

  lemma {:induction false} StepsOfStamp(run: seq<Step>, lo: nat, hi: nat, rq: nat)
    requires lo <= hi <= |run|
    ensures forall s :: s in StepsOf(run, lo, hi, rq) ==> Stamps(s, rq)
  {
    if lo == hi {
    } else {
      StepsOfStamp(run, lo, hi - 1, rq);
    }
  }

  /** The last time the kernel tracked the request, whether or not the filters let the probe run. */
  ghost predicate LatestCall(run: seq<Step>, j: nat, k: nat, rq: nat) {
    && j < k <= |run| && run[j].probe.RqTrack? && run[j].probe.rq == rq
    && forall i :: j < i < k ==> !(run[i].probe.RqTrack? && run[i].probe.rq == rq)
  }

  /** The emitted record starts at the latest tracking call exactly when the filters let that call
      through: with the filters off, always. */
  lemma StartsAtLatestCallIff(run: seq<Step>, b: nat, rq: nat, last: nat)
    requires Ticks(run) && Emits(run, b, rq) && LatestCall(run, last, b + 1, rq)
    ensures Emitted(run, b, rq).rqStart == run[last].time <==> run[last].passes
  {
    var j, i := GenerationIsolation(run, b, rq);
    StepsOfStamp(run, j + 1, b + 1, rq);
    ReplayKeepsStart(Fresh(run[i].time, run[j]), StepsOf(run, j + 1, b + 1, rq));
    assert j <= last;
    if j < last {
      assert run[j].time < run[last].time;
    }
  }

  // --- Conservation ------------------------------------------------------------------------------

  ghost predicate Inserts(run: seq<Step>, i: nat) {
    i < |run| && run[i].probe.RqTrack? && run[i].passes && run[i].probe.rq in At(run, i + 1).rqs
  }

  ghost predicate Recycles(run: seq<Step>, i: nat) {
    i < |run| && run[i].probe.RqTrack? && run[i].passes && run[i].probe.rq in At(run, i).rqs
  }

  ghost predicate Finishes(run: seq<Step>, i: nat) {
    i < |run| && run[i].probe.Account? && Emits(run, i, run[i].probe.rq)
  }

  function One(b: bool): nat {
    if b then 1 else 0
  }

  ghost function Inserted(run: seq<Step>, k: nat): nat
    requires k <= |run|
  {
    if k == 0 then 0 else Inserted(run, k - 1) + One(Inserts(run, k - 1))
  }

  ghost function Recycled(run: seq<Step>, k: nat): nat
    requires k <= |run|
  {
    if k == 0 then 0 else Recycled(run, k - 1) + One(Recycles(run, k - 1))
  }

  ghost function Finished(run: seq<Step>, k: nat): nat
    requires k <= |run|
  {
    if k == 0 then 0 else Finished(run, k - 1) + One(Finishes(run, k - 1))
  }

  lemma SizeWithout<V>(m: map<nat, V>, key: nat)
    ensures |m - {key}| == |m| - if key in m then 1 else 0
  {
    assert (m - {key}).Keys == m.Keys - {key};
  }

  lemma SizeWith<V>(m: map<nat, V>, key: nat, value: V)
    ensures |m[key := value]| == |m| + if key in m then 0 else 1
  {
    assert m[key := value].Keys == m.Keys + {key};
  }

  lemma TrackBalances(s: State, time: nat, rq: nat, bio: nat, write: bool, common: nat)
    ensures var s' := OnTrack(s, time, rq, bio, write, common);
            && |s'.rqs| + One(rq in s.rqs) == |s.rqs| + One(rq in s'.rqs)
            && (|s.rqs| <= REQUESTS ==> |s'.rqs| <= REQUESTS)
  {
    SizeWithout(s.rqs, rq);
    if bio in s.bioPass {
      SizeWith(s.rqs - {rq}, rq, NewTrace(s.bioPass[bio], time, write, common));
    }
  }

  lemma RequestBalances(s: State, time: nat, rq: nat, probe: Probe)
    ensures |OnRequest(s, time, rq, probe).rqs| + One(probe.Account? && probe.reserved && rq in s.rqs) == |s.rqs|
  {
    if rq in s.rqs {
      SizeWithout(s.rqs, rq);
      SizeWith(s.rqs, rq, Stamped(s.rqs[rq], time, probe));
    }
  }

  lemma StepBalances(run: seq<Step>, i: nat)
    requires i < |run|
    ensures |At(run, i + 1).rqs| + One(Recycles(run, i)) + One(Finishes(run, i))
            == |At(run, i).rqs| + One(Inserts(run, i))
    ensures |At(run, i).rqs| <= REQUESTS ==> |At(run, i + 1).rqs| <= REQUESTS
  {
    var s, step := At(run, i), run[i];
    match step.probe
    case Submit(_, _, _) =>
    case RqTrack(rq, bio, write, common) => TrackBalances(s, step.time, rq, bio, write, common);
    case _ => RequestBalances(s, step.time, step.probe.rq, step.probe);
  }

  /** Every traced request was emitted, recycled by a later track, or is still in the map. */
  lemma {:induction false} RequestsAreConserved(run: seq<Step>, k: nat)
    requires k <= |run|
    ensures Inserted(run, k) == Finished(run, k) + Recycled(run, k) + |At(run, k).rqs|
    ensures |At(run, k).rqs| <= REQUESTS
  {
    if k == 0 {
    } else {
      RequestsAreConserved(run, k - 1);
      StepBalances(run, k - 1);
    }
  }

  lemma {:induction false} StaysAbsent(run: seq<Step>, lo: nat, k: nat, rq: nat)
    requires lo <= k <= |run| && rq !in At(run, lo).rqs
    requires forall i :: lo <= i < k ==> !TracksRq(run[i], rq)
    ensures rq !in At(run, k).rqs
  {
    if lo == k {
    } else {
      StaysAbsent(run, lo, k - 1, rq);
      if rq in At(run, k).rqs {
        EntryAfter(At(run, k - 1), run[k - 1], rq);
      }
    }
  }

  /** Between two emissions of a request pointer it was inserted again: no insertion is emitted twice. */
  lemma EmittedAtMostOnce(run: seq<Step>, b: nat, b': nat, rq: nat) returns (j: nat)
    requires b < b' && Emits(run, b, rq) && Emits(run, b', rq)
    ensures b < j < b' && run[j].probe.RqTrack? && run[j].probe.rq == rq && Inserts(run, j)
  {
    var i;
    j, i := EntryFromGeneration(run, b', rq);
    if j <= b {
      StaysAbsent(run, b + 1, b', rq);
    }
    if rq !in At(run, j + 1).rqs {
      StaysAbsent(run, j + 1, b', rq);
    }
  }

  // --- Timestamps --------------------------------------------------------------------------------

  /** The clock that completion passes to the accounting probe is unset, or was read after the
      request was tracked and no later than the probe. */
  ghost predicate AccountClock(run: seq<Step>) {
    forall b :: 0 <= b < |run| && run[b].probe.Account? && run[b].probe.now != 0 ==>
      && run[b].probe.now <= run[b].time
      && forall j :: 0 <= j < b && TracksRq(run[j], run[b].probe.rq) ==> run[j].time <= run[b].probe.now
  }

  predicate InLife(x: nat, t: Trace, now: nat) {
    x == 0 || t.rqStart <= x <= now
  }

  predicate StampedInLife(t: Trace, now: nat) {
    && t.bioEnter <= t.rqStart <= now
    && InLife(t.plug, t, now) && InLife(t.path, t, now) && InLife(t.dispatch, t, now)
    && InLife(t.queueRq, t, now) && InLife(t.complete, t, now) && InLife(t.accountIo, t, now)
  }

  lemma StillInLife(t: Trace, before: nat, now: nat)
    requires StampedInLife(t, before) && before <= now
    ensures StampedInLife(t, now)
  {
  }

  /** A probe leaves each time as it was, or sets it to its own clock or the completion's. */
  lemma StampedTimes(t: Trace, time: nat, probe: Probe)
    ensures var u := Stamped(t, time, probe);
            && u.bioEnter == t.bioEnter && u.rqStart == t.rqStart
            && u.plug in {t.plug, time} && u.path in {t.path, time} && u.dispatch in {t.dispatch, time}
            && u.queueRq in {t.queueRq, time} && u.complete in {t.complete, time}
            && (u.accountIo == t.accountIo || (probe.Account? && u.accountIo == probe.now))
  {
  }

  lemma StampInLife(t: Trace, before: nat, step: Step)
    requires StampedInLife(t, before) && before <= step.time
    requires step.probe.Account? && step.probe.now != 0 ==> t.rqStart <= step.probe.now <= step.time
    ensures StampedInLife(Stamped(t, step.time, step.probe), step.time)
  {
    StillInLife(t, before, step.time);
    StampedTimes(t, step.time, step.probe);
  }

  /** In every reachable state, every time recorded for a live request lies in its lifetime. */
  lemma {:induction false} LiveTimestamps(run: seq<Step>, k: nat, rq: nat)
    requires Ticks(run) && AccountClock(run) && 0 < k <= |run| && rq in At(run, k).rqs
    ensures StampedInLife(At(run, k).rqs[rq], run[k - 1].time)
  {
    var before, step := At(run, k - 1), run[k - 1];
    EntryAfter(before, step, rq);
    if TracksRq(step, rq) {
      BioIsLatest(run, k - 1, step.probe.bio);
    } else {
      LiveTimestamps(run, k - 1, rq);
      var j, i := EntryFromGeneration(run, k - 1, rq);
      StepsOfStamp(run, j + 1, k - 1, rq);
      ReplayKeepsStart(Fresh(run[i].time, run[j]), StepsOf(run, j + 1, k - 1, rq));
      StillInLife(before.rqs[rq], run[k - 2].time, step.time);
      if Stamps(step, rq) {
        StampInLife(before.rqs[rq], step.time, step);
      }
    }
  }
}
