/** What every field of an emitted record means: the clock or the argument of the last probe of its
    request that writes it, in the order the probes ran. */
module BlockFields {
  import opened BpfMaps
  import opened BlockProbes
  import opened BlockRuns

  datatype Field = PlugTime | PathTime | DispatchTime | QueueTime | CompleteTime

  predicate Writes(p: Probe, f: Field) {
    match f
    case PlugTime => p.Plug?
    case PathTime => p.BypassInsert? || p.SchedInserted? || p.IssueDirectly?
    case DispatchTime => p.Dispatched?
    case QueueTime => p.QueueRq?
    case CompleteTime => p.ScsiEnd? || p.NvmeComplete?
  }

  function Value(t: Trace, f: Field): nat {
    match f
    case PlugTime => t.plug
    case PathTime => t.path
    case DispatchTime => t.dispatch
    case QueueTime => t.queueRq
    case CompleteTime => t.complete
  }

  /** The clock of the last step that writes the field, 0 if none does. */
  ghost function LastTime(steps: seq<Step>, f: Field): nat {
    if steps == [] then 0
    else
      var last := steps[|steps| - 1];
      if Writes(last.probe, f) then last.time else LastTime(steps[..|steps| - 1], f)
  }

  /** The last queueing says which drive and disk the request went to. */
  ghost function LastDrive(steps: seq<Step>): (Drive, nat) {
    if steps == [] then (NoDrive, 0)
    else
      var last := steps[|steps| - 1].probe;
      if last.QueueRq? then (last.drive, last.disk) else LastDrive(steps[..|steps| - 1])
  }

  /** How the request was inserted: the announcement of deadline or bfq outlasts the insertion into a
      scheduler, which means kyber otherwise. */
  ghost function LastSchedu(steps: seq<Step>): Schedu {
    if steps == [] then UnknownSchedu
    else
      var before := LastSchedu(steps[..|steps| - 1]);
      match steps[|steps| - 1].probe
      case BypassInsert(_) => Bypass
      case DeadlineInsert(_) => MqDeadline
      case BfqInsert(_) => Bfq
      case IssueDirectly(_) => NoSchedu
      case SchedInserted(_) => if before == MqDeadline || before == Bfq then before else Kyber
      case _ => before
  }

  ghost function LastDispatch(steps: seq<Step>): Dispatch {
    if steps == [] then UnknownDispatch
    else
      match steps[|steps| - 1].probe
      case Dispatched(_, how) => how
      case IssueDirectly(_) => DirectDispatch
      case _ => LastDispatch(steps[..|steps| - 1])
  }

  /** A record that was fresh before these steps. */
  ghost predicate IsRecordOf(t: Trace, start: Trace, steps: seq<Step>) {
    && (forall f :: Value(t, f) == LastTime(steps, f))
    && (t.drive, t.disk) == LastDrive(steps)
    && t.sType == LastSchedu(steps) && t.dType == LastDispatch(steps)
    && t.bioEnter == start.bioEnter && t.rqStart == start.rqStart
    && t.write == start.write && t.common == start.common
  }

  lemma StampKeepsRecord(t: Trace, start: Trace, steps: seq<Step>, step: Step)
    requires IsRecordOf(t, start, steps)
    ensures IsRecordOf(Stamped(t, step.time, step.probe), start, steps + [step])
  {
    assert (steps + [step])[..|steps|] == steps;
    assert forall f :: Value(t, f) == LastTime(steps, f);
  }

  lemma {:induction false} ReplayIsRecord(bioEnter: nat, track: Step, steps: seq<Step>)
    requires track.probe.RqTrack?
    ensures IsRecordOf(Replay(Fresh(bioEnter, track), steps), Fresh(bioEnter, track), steps)
    decreases |steps|
  {
    if steps == [] {
    } else {
      var front, last := steps[..|steps| - 1], steps[|steps| - 1];
      ReplayIsRecord(bioEnter, track, front);
      StampKeepsRecord(Replay(Fresh(bioEnter, track), front), Fresh(bioEnter, track), front, last);
      assert front + [last] == steps;
    }
  }

  lemma LastIsAccount(run: seq<Step>, b: nat, rq: nat, j: nat)
    requires Emits(run, b, rq) && j < b
    ensures StepsOf(run, j + 1, b + 1, rq) == StepsOf(run, j + 1, b, rq) + [run[b]]
  {
  }

  lemma FieldsOf(t: Trace, start: Trace, steps: seq<Step>)
    requires IsRecordOf(t, start, steps)
    ensures t.plug == LastTime(steps, PlugTime) && t.path == LastTime(steps, PathTime)
    ensures t.dispatch == LastTime(steps, DispatchTime) && t.queueRq == LastTime(steps, QueueTime)
    ensures t.complete == LastTime(steps, CompleteTime)
  {
    assert Value(t, PlugTime) == LastTime(steps, PlugTime) && Value(t, PathTime) == LastTime(steps, PathTime);
    assert Value(t, DispatchTime) == LastTime(steps, DispatchTime);
    assert Value(t, QueueTime) == LastTime(steps, QueueTime) && Value(t, CompleteTime) == LastTime(steps, CompleteTime);
  }

  /** Every emitted record is that of its own generation: entered when its bio was last submitted,
      started when it was last tracked, each field from the last of its request's probes since then
      that writes it, and the figures from the accounting probe. */
  lemma EmittedFields(run: seq<Step>, b: nat, rq: nat) returns (j: nat, i: nat)
    requires Emits(run, b, rq)
    ensures LatestTrack(run, j, b + 1, rq) && LatestSubmit(run, i, j, run[j].probe.bio)
    ensures var t, steps, p := Emitted(run, b, rq), StepsOf(run, j + 1, b + 1, rq), run[b].probe;
            && t.bioEnter == run[i].time && t.rqStart == run[j].time
            && t.write == run[j].probe.write && t.common == run[j].probe.common
            && t.plug == LastTime(steps, PlugTime) && t.path == LastTime(steps, PathTime)
            && t.dispatch == LastTime(steps, DispatchTime) && t.queueRq == LastTime(steps, QueueTime)
            && t.complete == LastTime(steps, CompleteTime)
            && (t.drive, t.disk) == LastDrive(steps)
            && t.sType == LastSchedu(steps) && t.dType == LastDispatch(steps)
            && t.accountIo == p.now && t.sector == p.sector && t.stats == p.stats && t.segments == p.segments
  {
    j, i := GenerationIsolation(run, b, rq);
    var start, steps := Fresh(run[i].time, run[j]), StepsOf(run, j + 1, b + 1, rq);
    assert j < b;
    LastIsAccount(run, b, rq, j);
    ReplayIsRecord(run[i].time, run[j], steps);
    FieldsOf(Emitted(run, b, rq), start, steps);
    var front := StepsOf(run, j + 1, b, rq);
    assert steps[..|steps| - 1] == front;
  }

  // --- When a request is traced at all -----------------------------------------------------------

  /** A tracked request is traced if and only if its bio was seen and one of the 256 places is free. */
  lemma TracedIff(s: State, time: nat, rq: nat, bio: nat, write: bool, common: nat)
    ensures rq in OnTrack(s, time, rq, bio, write, common).rqs <==> bio in s.bioPass && |s.rqs - {rq}| < 256
    ensures forall other :: other != rq ==>
              && (other in OnTrack(s, time, rq, bio, write, common).rqs <==> other in s.rqs)
              && (other in s.rqs ==> OnTrack(s, time, rq, bio, write, common).rqs[other] == s.rqs[other])
  {
  }

  /** A submission is remembered unless its bio is new and all of the 32768 places are taken. */
  lemma RememberedIff(s: State, time: nat, bio: nat, bioPrivate: nat, reserved: bool)
    ensures var after := OnSubmit(s, time, bio, bioPrivate, reserved).bioPass;
            && (bio in after <==> bio in s.bioPass || |s.bioPass| < 32768)
            && (bio in after ==> after[bio] == time)
            && forall other :: other != bio ==>
                 (other in after <==> other in s.bioPass) && (other in after ==> after[other] == s.bioPass[other])
  {
  }

  // --- Enter records -----------------------------------------------------------------------------

  lemma RequestLogs(s: State, time: nat, rq: nat, probe: Probe, r: Record)
    requires r in OnRequest(s, time, rq, probe).log && r !in s.log
    ensures r.RqTrace?
  {
  }

  lemma NewRecord(s: State, step: Step, r: Record)
    requires r in Next(s, step).log && r !in s.log && r.BioEnter?
    ensures step.passes && step.probe == Submit(r.bio, r.bioPrivate, true) && step.time == r.tp
  {
    match step.probe
    case Submit(_, _, _) =>
    case RqTrack(_, _, _, _) =>
    case _ => RequestLogs(s, step.time, step.probe.rq, step.probe, r);
  }

  /** Every enter record was written by a submission with the reservation granted, at its clock. */
  lemma {:induction false} EnterRecords(run: seq<Step>, k: nat, r: Record)
    requires k <= |run| && r in At(run, k).log && r.BioEnter?
    ensures exists i: nat :: && i < k && run[i].passes && run[i].time == r.tp
                             && run[i].probe == Submit(r.bio, r.bioPrivate, true)
    decreases k
  {
    if k == 0 {
    } else if r in At(run, k - 1).log {
      EnterRecords(run, k - 1, r);
    } else {
      NewRecord(At(run, k - 1), run[k - 1], r);
    }
  }
}
