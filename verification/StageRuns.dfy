/** A request whose probes fire in the regular order yields a record whose stages telescope. */
module StageRuns {
  import opened Words
  import opened BlockProbes
  import opened BlockRuns
  import opened Stages

  ghost predicate Rising(steps: seq<Step>) {
    forall i, j :: 0 <= i < j < |steps| ==> steps[i].time < steps[j].time
  }

  predicate Inserts(step: Step) {
    step.probe.BypassInsert? || step.probe.SchedInserted?
  }

  predicate Dispatches(step: Step) {
    step.probe.Dispatched? && !step.probe.how.UnknownDispatch? && !step.probe.how.DirectDispatch?
  }

  /** Between plugging and queueing: issued directly, or inserted and then dispatched, where a
      scheduler may announce itself before the insertion. */
  predicate RegularPath(mid: seq<Step>) {
    || (|mid| == 1 && mid[0].probe.IssueDirectly?)
    || (|mid| == 2 && Inserts(mid[0]) && Dispatches(mid[1]))
    || (|mid| == 3 && (mid[0].probe.DeadlineInsert? || mid[0].probe.BfqInsert?)
        && mid[1].probe.SchedInserted? && Dispatches(mid[2]))
  }

  /** Queued to a drive, completed by that drive, accounted. */
  predicate RegularEnd(end: seq<Step>) {
    && |end| == 3
    && end[0].probe.QueueRq? && end[2].probe.Account?
    && ((end[0].probe.drive.Nvme? && end[1].probe.NvmeComplete?) || (end[0].probe.drive.Scsi? && end[1].probe.ScsiEnd?))
  }

  predicate Regular(steps: seq<Step>) {
    && |steps| >= 5
    && steps[0].probe.Plug?
    && RegularPath(steps[1..|steps| - 3])
    && RegularEnd(steps[|steps| - 3..])
  }

  lemma {:induction false} ReplayConcat(t: Trace, a: seq<Step>, b: seq<Step>)
    ensures Replay(t, a + b) == Replay(Replay(t, a), b)
  {
    if b == [] {
      assert a + b == a;
    } else {
      ReplayConcat(t, a, b[..|b| - 1]);
      assert (a + b)[..|a + b| - 1] == a + b[..|b| - 1];
    }
  }

  lemma ReplayOne(t: Trace, s: Step)
    ensures Replay(t, [s]) == Stamped(t, s.time, s.probe)
  {
    assert [s][..0] == [];
  }

  lemma ReplayTwo(t: Trace, s: Step, r: Step)
    ensures Replay(t, [s, r]) == Stamped(Stamped(t, s.time, s.probe), r.time, r.probe)
  {
    ReplayOne(t, s);
    assert [s, r][..1] == [s];
  }

  lemma ReplayThree(t: Trace, s: Step, r: Step, q: Step)
    ensures Replay(t, [s, r, q]) == Stamped(Stamped(Stamped(t, s.time, s.probe), r.time, r.probe), q.time, q.probe)
  {
    ReplayTwo(t, s, r);
    assert [s, r, q][..2] == [s, r];
  }

  /** When the request was inserted or issued: the last step but one of a path with a dispatch. */
  function PathStep(mid: seq<Step>): Step
    requires RegularPath(mid)
  {
    if |mid| == 1 then mid[0] else mid[|mid| - 2]
  }

  /** What the middle of the path leaves behind. */
  lemma AfterPath(t: Trace, mid: seq<Step>)
    requires RegularPath(mid) && Rising(mid)
    ensures var u := Replay(t, mid);
            && u.bioEnter == t.bioEnter && u.rqStart == t.rqStart && u.plug == t.plug
            && !u.sType.UnknownSchedu? && !u.dType.UnknownDispatch? && TagsAgree(u)
            && u.path == PathStep(mid).time
            && (u.dType.DirectDispatch? <==> |mid| == 1)
            && (|mid| > 1 ==> u.dispatch == mid[|mid| - 1].time && u.dType == mid[|mid| - 1].probe.how)
            && u.write == t.write && u.common == t.common
  {
    if |mid| == 1 {
      assert mid == [mid[0]];
      ReplayOne(t, mid[0]);
    } else if |mid| == 2 {
      assert mid == [mid[0], mid[1]];
      ReplayTwo(t, mid[0], mid[1]);
    } else {
      assert mid == [mid[0], mid[1], mid[2]];
      ReplayThree(t, mid[0], mid[1], mid[2]);
    }
  }

  lemma AfterEnd(t: Trace, end: seq<Step>)
    requires RegularEnd(end)
    ensures var u := Replay(t, end);
            && u == t.(queueRq := end[0].time, drive := end[0].probe.drive, disk := end[0].probe.disk,
                       complete := end[1].time, accountIo := end[2].probe.now, sector := end[2].probe.sector,
                       stats := end[2].probe.stats, segments := end[2].probe.segments)
            && !u.drive.NoDrive?
  {
    assert end == [end[0], end[1], end[2]];
    ReplayThree(t, end[0], end[1], end[2]);
  }

  lemma SplitReplay(t: Trace, plug: Step, mid: seq<Step>, end: seq<Step>)
    requires plug.probe.Plug?
    ensures Replay(t, [plug] + mid + end) == Replay(Replay(t.(plug := plug.time), mid), end)
  {
    ReplayConcat(t, [plug] + mid, end);
    ReplayConcat(t, [plug], mid);
    ReplayOne(t, plug);
  }

  /** The record of a generation: every time is the clock of the step that stands for it. */
  predicate HasTimes(u: Trace, t: Trace, plug: Step, mid: seq<Step>, end: seq<Step>)
    requires RegularPath(mid) && RegularEnd(end)
  {
    && u.bioEnter == t.bioEnter && u.rqStart == t.rqStart && u.write == t.write && u.common == t.common
    && u.plug == plug.time && u.path == PathStep(mid).time
    && (u.dType.DirectDispatch? <==> |mid| == 1) && (|mid| > 1 ==> u.dispatch == mid[|mid| - 1].time)
    && u.queueRq == end[0].time && u.drive == end[0].probe.drive
    && u.complete == end[1].time && u.accountIo == end[2].probe.now
  }

  /** A regular generation leaves a classified record with its times in order. */
  lemma RegularReplay(t: Trace, plug: Step, mid: seq<Step>, end: seq<Step>)
    requires plug.probe.Plug? && RegularPath(mid) && RegularEnd(end) && Rising(mid)
    requires t.bioEnter <= t.rqStart <= plug.time <= mid[0].time
    requires mid[|mid| - 1].time <= end[0].time <= end[1].time <= end[2].probe.now < WORD
    ensures var u := Replay(t, [plug] + mid + end);
            && Classified(u) && TagsAgree(u) && InOrder(u)
            && HasTimes(u, t, plug, mid, end)
  {
    SplitReplay(t, plug, mid, end);
    AfterPath(t.(plug := plug.time), mid);
    AfterEnd(Replay(t.(plug := plug.time), mid), end);
  }

  predicate IsRegularRecord(u: Trace, t: Trace, steps: seq<Step>)
    requires Regular(steps)
  {
    && Classified(u) && TagsAgree(u) && InOrder(u)
    && HasTimes(u, t, steps[0], steps[1..|steps| - 3], steps[|steps| - 3..])
  }

  lemma RegularSteps(t: Trace, steps: seq<Step>)
    requires Regular(steps) && Rising(steps)
    requires t.bioEnter <= t.rqStart < steps[0].time
    requires steps[|steps| - 2].time <= steps[|steps| - 1].probe.now < WORD
    ensures IsRegularRecord(Replay(t, steps), t, steps)
  {
    var n := |steps|;
    var mid, end := steps[1..n - 3], steps[n - 3..];
    assert steps == [steps[0]] + mid + end;
    assert mid[0] == steps[1] && mid[|mid| - 1] == steps[n - 4];
    RegularReplay(t, steps[0], mid, end);
  }

  ghost predicate AllWithin(steps: seq<Step>, lo: nat, hi: nat) {
    forall s :: s in steps ==> lo < s.time <= hi
  }

  lemma {:induction false} StepsRise(run: seq<Step>, lo: nat, hi: nat, rq: nat)
    requires Ticks(run) && 0 < lo <= hi <= |run|
    ensures Rising(StepsOf(run, lo, hi, rq))
    ensures AllWithin(StepsOf(run, lo, hi, rq), run[lo - 1].time, run[hi - 1].time)
  {
    if lo == hi {
    } else {
      StepsRise(run, lo, hi - 1, rq);
    }
  }

  /** In the regular order, and with a completion clock that was read after the drive completed. */
  predicate RunsRegularly(steps: seq<Step>) {
    Regular(steps) && steps[|steps| - 2].time <= steps[|steps| - 1].probe.now < WORD
  }

  ghost predicate RanRegularly(run: seq<Step>, b: nat, rq: nat, j: nat) {
    && LatestTrack(run, j, b + 1, rq)
    && RunsRegularly(StepsOf(run, j + 1, b + 1, rq))
  }

  lemma SameTrack(run: seq<Step>, j: nat, j': nat, k: nat, rq: nat)
    requires LatestTrack(run, j, k, rq) && LatestTrack(run, j', k, rq)
    ensures j == j'
  {
  }

  lemma GenerationOf(run: seq<Step>, b: nat, rq: nat, j: nat) returns (i: nat)
    requires Emits(run, b, rq) && LatestTrack(run, j, b + 1, rq)
    ensures FromGeneration(run, j, i, b + 1, rq, Emitted(run, b, rq))
  {
    var j';
    j', i := GenerationIsolation(run, b, rq);
    SameTrack(run, j, j', b + 1, rq);
  }

  lemma EmissionReplay(run: seq<Step>, b: nat, rq: nat, j: nat) returns (i: nat)
    requires Ticks(run) && Emits(run, b, rq) && LatestTrack(run, j, b + 1, rq)
    ensures LatestSubmit(run, i, j, run[j].probe.bio) && run[i].time < run[j].time
    ensures Emitted(run, b, rq) == Replay(Fresh(run[i].time, run[j]), StepsOf(run, j + 1, b + 1, rq))
  {
    i := GenerationOf(run, b, rq, j);
  }

  lemma AfterTrack(t: Trace, steps: seq<Step>, tracked: nat, until: nat)
    requires RunsRegularly(steps) && Rising(steps) && t.bioEnter <= t.rqStart == tracked
    requires AllWithin(steps, tracked, until)
    ensures IsRegularRecord(Replay(t, steps), t, steps)
  {
    assert steps[0] in steps;
    RegularSteps(t, steps);
  }

  lemma StepsSince(run: seq<Step>, j: nat, b: nat, rq: nat)
    requires Ticks(run) && j <= b < |run|
    ensures Rising(StepsOf(run, j + 1, b + 1, rq))
    ensures AllWithin(StepsOf(run, j + 1, b + 1, rq), run[j].time, run[b].time)
  {
    StepsRise(run, j + 1, b + 1, rq);
  }

  lemma RegularGeneration(run: seq<Step>, b: nat, rq: nat, j: nat) returns (i: nat)
    requires Ticks(run) && Emits(run, b, rq) && RanRegularly(run, b, rq, j)
    ensures LatestSubmit(run, i, j, run[j].probe.bio) && run[i].time < run[j].time
    ensures var steps := StepsOf(run, j + 1, b + 1, rq);
            && Emitted(run, b, rq) == Replay(Fresh(run[i].time, run[j]), steps)
            && Rising(steps) && AllWithin(steps, run[j].time, run[b].time)
  {
    i := EmissionReplay(run, b, rq, j);
    StepsSince(run, j, b, rq);
  }

  /** Every cell of the row, from the clocks of the steps that stand for it. */
  ghost predicate StagesAre(t: Trace, submit: Step, track: Step, plug: Step, mid: seq<Step>, end: seq<Step>)
    requires track.probe.RqTrack? && RegularPath(mid) && RegularEnd(end)
  {
    var path, dispatch, queue, complete := PathStep(mid), mid[|mid| - 1], end[0], end[1];
    var direct, nvme, account := |mid| == 1, end[0].probe.drive.Nvme?, end[2].probe.now;
    && Stage(t, 0) == submit.time
    && Stage(t, 1) == track.time - submit.time
    && Stage(t, 2) == (if track.probe.write then 1 else 0)
    && Stage(t, 3) == path.time - plug.time
    && Stage(t, 4) == (if direct then 0 else dispatch.time - path.time)
    && Stage(t, 5) == queue.time - (if direct then path.time else dispatch.time)
    && Stage(t, 6) == (if nvme then complete.time - queue.time else 0)
    && Stage(t, 7) == (if nvme then 0 else complete.time - queue.time)
    && Stage(t, 8) == (if nvme then account - complete.time else 0)
    && Stage(t, 9) == (if nvme then 0 else account - complete.time)
    && Stage(t, 10) == track.probe.common
  }

  /** The same, with the steps of the whole generation. */
  ghost predicate StagesOf(t: Trace, submit: Step, track: Step, steps: seq<Step>)
    requires track.probe.RqTrack? && Regular(steps)
  {
    StagesAre(t, submit, track, steps[0], steps[1..|steps| - 3], steps[|steps| - 3..])
  }

  lemma TimesGiveStages(t: Trace, submit: Step, track: Step, plug: Step, mid: seq<Step>, end: seq<Step>)
    requires track.probe.RqTrack? && RegularPath(mid) && RegularEnd(end)
    requires Classified(t) && TagsAgree(t) && InOrder(t)
    requires HasTimes(t, Fresh(submit.time, track), plug, mid, end)
    ensures StagesAre(t, submit, track, plug, mid, end)
  {
    SubIsExact(t.rqStart, t.bioEnter);
    SubIsExact(t.path, t.plug);
    SubIsExact(t.complete, t.queueRq);
    SubIsExact(t.accountIo, t.complete);
    if |mid| == 1 {
      SubIsExact(t.queueRq, t.path);
    } else {
      SubIsExact(t.dispatch, t.path);
      SubIsExact(t.queueRq, t.dispatch);
    }
  }

  lemma RecordGivesStages(t: Trace, submit: Step, track: Step, steps: seq<Step>)
    requires track.probe.RqTrack? && Regular(steps) && IsRegularRecord(t, Fresh(submit.time, track), steps)
    ensures StagesOf(t, submit, track, steps)
  {
    TimesGiveStages(t, submit, track, steps[0], steps[1..|steps| - 3], steps[|steps| - 3..]);
  }

  /** Every record emitted by a generation that ran in the regular order is cut into the clock
      differences of the probes of that generation, whatever other requests did in between. */
  lemma RegularRunsHaveStages(run: seq<Step>, b: nat, rq: nat, j: nat) returns (i: nat)
    requires Ticks(run) && Emits(run, b, rq) && RanRegularly(run, b, rq, j)
    ensures LatestSubmit(run, i, j, run[j].probe.bio)
    ensures StagesOf(Emitted(run, b, rq), run[i], run[j], StepsOf(run, j + 1, b + 1, rq))
  {
    i := RegularGeneration(run, b, rq, j);
    var steps := StepsOf(run, j + 1, b + 1, rq);
    AfterTrack(Fresh(run[i].time, run[j]), steps, run[j].time, run[b].time);
    RecordGivesStages(Emitted(run, b, rq), run[i], run[j], steps);
  }

  /** And it telescopes. */
  lemma RegularRunsTelescope(run: seq<Step>, b: nat, rq: nat, j: nat)
    requires Ticks(run) && Emits(run, b, rq) && RanRegularly(run, b, rq, j)
    ensures var t := Emitted(run, b, rq);
            && t.rqStart == run[j].time
            && Latencies(StageRow(t)) == Differences(t)
            && LatencySum(StageRow(t)) == Sum(Differences(t))
            && t.bioEnter + Sum(Differences(t)) == t.accountIo - (t.plug - t.rqStart) == EndTime(StageRow(t))
  {
    var i := RegularGeneration(run, b, rq, j);
    AfterTrack(Fresh(run[i].time, run[j]), StepsOf(run, j + 1, b + 1, rq), run[j].time, run[b].time);
    StagesTelescope(Emitted(run, b, rq));
  }

  // --- The excluded case -------------------------------------------------------------------------

  const BIO: nat := 5
  const RQ: nat := 9

  /** A request that is issued directly and then inserted after all. */
  function Fallback(): seq<Step> {
    [Step(1, true, Submit(BIO, 0, false)),
     Step(2, true, RqTrack(RQ, BIO, true, 0)),
     Step(3, true, Plug(RQ)),
     Step(4, true, IssueDirectly(RQ)),
     Step(5, true, BypassInsert(RQ)),
     Step(6, true, QueueRq(RQ, Nvme, 0)),
     Step(7, true, NvmeComplete(RQ)),
     Step(8, true, Account(RQ, 8, 0, 0, 0, true))]
  }

  /** Its record: tagged as inserted and as dispatched directly, without a dispatch time. */
  const FALLBACK_TRACE: Trace :=
    Trace(1, 2, 0, true, 3, 5, 0, 6, Bypass, DirectDispatch, 7, 8, 0, 0, 0, Nvme, 0)

  lemma FallbackTracked()
    ensures At(Fallback(), 2) == State(map[BIO := 1], map[RQ := NewTrace(1, 2, true, 0)], [])
  {
    assert At(Fallback(), 1) == State(map[BIO := 1], map[], []);
  }

  lemma StampOnly(bios: map<nat, nat>, t: Trace, step: Step)
    requires Stamps(step, RQ) && !step.probe.Account?
    ensures Next(State(bios, map[RQ := t], []), step) == State(bios, map[RQ := Stamped(t, step.time, step.probe)], [])
  {
  }

  lemma FallbackInserted()
    ensures var t := NewTrace(1, 2, true, 0).(plug := 3, path := 5, sType := Bypass, dType := DirectDispatch);
            At(Fallback(), 5) == State(map[BIO := 1], map[RQ := t], [])
  {
    var bios, run, t := map[BIO := 1], Fallback(), NewTrace(1, 2, true, 0);
    FallbackTracked();
    StampOnly(bios, t, run[2]);
    StampOnly(bios, t.(plug := 3), run[3]);
    StampOnly(bios, t.(plug := 3, path := 4, sType := NoSchedu, dType := DirectDispatch), run[4]);
  }

  lemma FallbackCompleted()
    ensures At(Fallback(), 7) == State(map[BIO := 1], map[RQ := FALLBACK_TRACE.(accountIo := 0)], [])
  {
    var bios, run := map[BIO := 1], Fallback();
    var t := FALLBACK_TRACE.(queueRq := 0, drive := NoDrive, complete := 0, accountIo := 0);
    FallbackInserted();
    StampOnly(bios, t, run[5]);
    StampOnly(bios, t.(queueRq := 6, drive := Nvme), run[6]);
  }

  lemma FinishOnly(run: seq<Step>, b: nat, bios: map<nat, nat>, t: Trace)
    requires b < |run| && run[b].probe.Account? && run[b].probe.rq == RQ && run[b].probe.reserved
    requires At(run, b) == State(bios, map[RQ := t], [])
    ensures Emits(run, b, RQ) && Emitted(run, b, RQ) == Stamped(t, run[b].time, run[b].probe)
  {
  }

  lemma FallbackAccounted()
    ensures Fallback()[7] == Step(8, true, Account(RQ, 8, 0, 0, 0, true))
    ensures Stamped(FALLBACK_TRACE.(accountIo := 0), 8, Account(RQ, 8, 0, 0, 0, true)) == FALLBACK_TRACE
  {
  }

  lemma FallbackEmitted()
    ensures Emits(Fallback(), 7, RQ) && Emitted(Fallback(), 7, RQ) == FALLBACK_TRACE
  {
    FallbackCompleted();
    FallbackAccounted();
    FinishOnly(Fallback(), 7, map[BIO := 1], FALLBACK_TRACE.(accountIo := 0));
  }

  lemma FallbackTicks()
    ensures Ticks(Fallback())
  {
  }

  lemma FallbackEnd()
    ensures EndTime(StageRow(FALLBACK_TRACE)) == 2
  {
    EndTimeIs(FALLBACK_TRACE);
  }

  /** A run whose record is classified although its tags disagree: the analysis dates its end 5 ticks
      before the accounting time minus the time from allocation to plugging. */
  lemma FallbackMisadds()
    ensures var run, t := Fallback(), FALLBACK_TRACE;
            && Ticks(run) && Emits(run, 7, RQ) && Emitted(run, 7, RQ) == t
            && Classified(t) && Kept(t) && !TagsAgree(t)
            && t.accountIo - (t.plug - t.rqStart) == 7 && EndTime(StageRow(t)) == 2
  {
    FallbackEmitted();
    FallbackTicks();
    FallbackEnd();
  }
}
