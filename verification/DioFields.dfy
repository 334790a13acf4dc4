/** What every field of an emitted dio or request row means: the step that wrote it, over every run. */
module DioFields {
  import opened DioProbes
  import opened DioJoin

  // --- Dio rows ----------------------------------------------------------------------------------

  predicate Syncs(step: Step, write: bool) {
    Fires(step) && step.probe.SyncCall? && step.probe.selected && step.probe.write == write
  }

  ghost predicate NoSyncSince(run: seq<Step>, s: nat, k: nat, write: bool)
    requires k <= |run|
  {
    forall i :: s < i < k ==> !Syncs(run[i], write)
  }

  /** The clock of the latest selected call in this direction among the first k steps, 0 if there is none. */
  ghost predicate IsLatestSync(run: seq<Step>, k: nat, write: bool, time: nat)
    requires k <= |run|
  {
    || (time == 0 && forall i :: 0 <= i < k ==> !Syncs(run[i], write))
    || exists s: nat :: s < k && Syncs(run[s], write) && run[s].time == time && NoSyncSince(run, s, k, write)
  }

  lemma SyncStep(s: State, step: Step)
    ensures Next(s, step).writeStart == if Syncs(step, true) then step.time else s.writeStart
    ensures Next(s, step).readStart == if Syncs(step, false) then step.time else s.readStart
  {
  }

  lemma LatestSyncStep(run: seq<Step>, k: nat, write: bool, before: nat, after: nat)
    requires k < |run| && IsLatestSync(run, k, write, before)
    requires after == if Syncs(run[k], write) then run[k].time else before
    ensures IsLatestSync(run, k + 1, write, after)
  {
    if Syncs(run[k], write) {
      assert NoSyncSince(run, k, k + 1, write);
    } else if s: nat :| s < k && Syncs(run[s], write) && run[s].time == before && NoSyncSince(run, s, k, write) {
      assert NoSyncSince(run, s, k + 1, write);
    }
  }

  /** The two globals hold the start of the latest write and of the latest read. */
  lemma {:induction false} GlobalsAreLatest(run: seq<Step>, k: nat)
    requires k <= |run|
    ensures IsLatestSync(run, k, true, At(run, k).writeStart)
    ensures IsLatestSync(run, k, false, At(run, k).readStart)
  {
    if k == 0 {
    } else {
      GlobalsAreLatest(run, k - 1);
      SyncStep(At(run, k - 1), run[k - 1]);
      LatestSyncStep(run, k - 1, true, At(run, k - 1).writeStart, At(run, k).writeStart);
      LatestSyncStep(run, k - 1, false, At(run, k - 1).readStart, At(run, k).readStart);
    }
  }

  /** Step c creates the event of the iocb. */
  ghost predicate Creates(run: seq<Step>, c: nat, iocb: nat) {
    && c < |run| && Fires(run[c]) && run[c].probe.DioIter? && run[c].probe.selected && run[c].probe.iocb == iocb
    && iocb !in At(run, c).events
  }

  /** The event step c created and nothing took out of the cache since, before it is completed. */
  ghost predicate IsEventOf(run: seq<Step>, c: nat, k: nat, iocb: nat, event: SimpleDio) {
    && c < k <= |run| && Creates(run, c, iocb) && Stays(run, c + 1, k, iocb)
    && event.startExt4 == run[c].time && event.inode == run[c].probe.inode && event.write == run[c].probe.write
    && IsLatestSync(run, c, run[c].probe.write, event.startDio)
  }

  lemma EventKept(s: State, step: Step, iocb: nat)
    requires iocb in Next(s, step).events && iocb in s.events
    ensures var event, before := Next(s, step).events[iocb], s.events[iocb];
            && event.startDio == before.startDio && event.startExt4 == before.startExt4
            && event.inode == before.inode && event.write == before.write
  {
  }

  lemma EventMade(s: State, step: Step, iocb: nat)
    requires iocb in Next(s, step).events && iocb !in s.events
    ensures Fires(step) && step.probe.DioIter? && step.probe.selected && step.probe.iocb == iocb
    ensures var event := Next(s, step).events[iocb];
            && event.startExt4 == step.time && event.inode == step.probe.inode && event.write == step.probe.write
            && event.startDio == if event.write then s.writeStart else s.readStart
  {
  }

  lemma {:induction false} EventFields(run: seq<Step>, k: nat, iocb: nat) returns (c: nat)
    requires k <= |run| && iocb in At(run, k).events
    ensures IsEventOf(run, c, k, iocb, At(run, k).events[iocb])
  {
    var before := At(run, k - 1);
    if iocb in before.events {
      c := EventFields(run, k - 1, iocb);
      EventKept(before, run[k - 1], iocb);
    } else {
      c := k - 1;
      EventMade(before, run[k - 1], iocb);
      GlobalsAreLatest(run, k - 1);
    }
  }

  /** Every emitted dio row carries the call, the iteration, the file and the direction that belong to it,
      and the completion of its own emission. */
  lemma DioRowFields(run: seq<Step>, k: nat, row: Record) returns (a: nat, c: nat)
    requires k <= |run| && row in DioRows(At(run, k).log)
    ensures a < k && row.DioRecord? && DioRowFrom(run, a, row)
    ensures IsEventOf(run, c, a, run[a].probe.iocb, row.event)
    ensures row.event.endBlockIo == run[a].time && row.event.size == run[a].probe.size
  {
    RowsComeFromSteps(run, k);
    a :| a < k && DioRowFrom(run, a, row);
    c := EventFields(run, a, run[a].probe.iocb);
  }

  // --- Request rows ------------------------------------------------------------------------------

  datatype Field = QueueTime | StartTime | FirstWord | SecondWord

  /** The probe that writes the field of this request; the two words are shared by the drives' paths. */
  predicate Writes(step: Step, rq: nat, f: Field) {
    && Fires(step)
    && match f
       case QueueTime => step.probe.QueueRq? && step.probe.rq == rq
       case StartTime => step.probe.StartRequest? && step.probe.rq == rq
       case FirstWord => (step.probe.SoftirqDone? || step.probe.PciComplete?) && step.probe.rq == rq
       case SecondWord => (step.probe.ScsiEnd? || step.probe.NvmeComplete?) && step.probe.rq == rq
  }

  function Value(info: RqInfo, f: Field): nat {
    match f
    case QueueTime => info.queueRq
    case StartTime => info.rqStart
    case FirstWord => info.word0
    case SecondWord => info.word1
  }

  /** The clock of the last step in [lo, hi) that writes the field, 0 if none does. */
  ghost function LastTime(run: seq<Step>, lo: nat, hi: nat, rq: nat, f: Field): nat
    requires lo <= hi <= |run|
  {
    if lo == hi then 0
    else if Writes(run[hi - 1], rq, f) then run[hi - 1].time
    else LastTime(run, lo, hi - 1, rq, f)
  }

  /** The drive is known from the first of its two completion probes. */
  ghost function LastDrive(run: seq<Step>, lo: nat, hi: nat, rq: nat): Drive
    requires lo <= hi <= |run|
  {
    if lo == hi then NoDrive
    else if run[hi - 1].probe == SoftirqDone(rq) then Scsi
    else if run[hi - 1].probe == PciComplete(rq) then Nvme
    else LastDrive(run, lo, hi - 1, rq)
  }

  predicate Stamps(probe: Probe) {
    probe.StartRequest? || probe.SoftirqDone? || probe.ScsiEnd? || probe.PciComplete? || probe.NvmeComplete?
  }

  predicate Tracks(step: Step, rq: nat) {
    Fires(step) && step.probe.RqTrack? && step.probe.rq == rq
  }

  /** The request was tagged by step t, not tracked again since, and holds what its probes wrote since. */
  ghost predicate IsRequestOf(run: seq<Step>, t: nat, k: nat, rq: nat, info: RqInfo) {
    && t < k <= |run| && Tracks(run[t], rq) && Tags(run, t, rq, run[t].probe.bioPrivate, info.dioUid)
    && (forall i :: t < i < k ==> !Tracks(run[i], rq))
    && info.rqPtr == rq && info.rqBioStart == run[t].time
    && (forall f :: Value(info, f) == LastTime(run, t + 1, k, rq, f))
    && info.drive == LastDrive(run, t + 1, k, rq)
  }

  lemma RequestMade(s: State, step: Step, rq: nat)
    requires rq in Next(s, step).rqs && Tracks(step, rq)
    ensures step.probe.bioPrivate in s.filter
    ensures var uid := s.filter[step.probe.bioPrivate];
            Next(s, step).rqs[rq] == RqInfo(uid, rq, step.time, 0, 0, 0, 0, 0, 0, 0, 0, 0, NoDrive)
  {
  }

  /** What one step leaves of a cached request it does not track. */
  ghost predicate WrittenBy(step: Step, rq: nat, before: RqInfo, info: RqInfo) {
    && info.dioUid == before.dioUid && info.rqPtr == before.rqPtr && info.rqBioStart == before.rqBioStart
    && (forall f :: Value(info, f) == if Writes(step, rq, f) then step.time else Value(before, f))
    && info.drive == (if step.probe == SoftirqDone(rq) then Scsi
                      else if step.probe == PciComplete(rq) then Nvme else before.drive)
  }

  lemma StampWrites(s: State, step: Step, rq: nat)
    requires Fires(step) && Stamps(step.probe) && rq in Next(s, step).rqs
    ensures rq in s.rqs && WrittenBy(step, rq, s.rqs[rq], Next(s, step).rqs[rq])
  {
  }

  lemma QueueWrites(s: State, step: Step, rq: nat)
    requires Fires(step) && step.probe.QueueRq? && rq in Next(s, step).rqs
    ensures rq in s.rqs && WrittenBy(step, rq, s.rqs[rq], Next(s, step).rqs[rq])
  {
  }

  lemma AccountWrites(s: State, step: Step, rq: nat)
    requires Fires(step) && step.probe.Account? && rq in Next(s, step).rqs
    ensures rq in s.rqs && WrittenBy(step, rq, s.rqs[rq], Next(s, step).rqs[rq])
  {
  }

  lemma OthersKeep(s: State, step: Step, rq: nat)
    requires !Fires(step) || !(Stamps(step.probe) || step.probe.QueueRq? || step.probe.Account?)
    requires !Tracks(step, rq) && rq in Next(s, step).rqs
    ensures rq in s.rqs && s.rqs[rq] == Next(s, step).rqs[rq]
  {
  }

  lemma RequestKept(s: State, step: Step, rq: nat)
    requires !Tracks(step, rq) && rq in Next(s, step).rqs
    ensures rq in s.rqs && WrittenBy(step, rq, s.rqs[rq], Next(s, step).rqs[rq])
  {
    if !Fires(step) {
    } else if Stamps(step.probe) {
      StampWrites(s, step, rq);
    } else if step.probe.QueueRq? {
      QueueWrites(s, step, rq);
    } else if step.probe.Account? {
      AccountWrites(s, step, rq);
    } else {
      OthersKeep(s, step, rq);
    }
  }

  lemma RequestCarried(run: seq<Step>, t: nat, k: nat, rq: nat, before: RqInfo, info: RqInfo)
    requires 0 < k <= |run| && IsRequestOf(run, t, k - 1, rq, before) && !Tracks(run[k - 1], rq)
    requires WrittenBy(run[k - 1], rq, before, info)
    ensures IsRequestOf(run, t, k, rq, info)
  {
  }

  lemma {:induction false} RequestFields(run: seq<Step>, k: nat, rq: nat) returns (t: nat)
    requires k <= |run| && rq in At(run, k).rqs
    ensures IsRequestOf(run, t, k, rq, At(run, k).rqs[rq])
  {
    var before, step := At(run, k - 1), run[k - 1];
    if Tracks(step, rq) {
      t := k - 1;
      RequestMade(before, step, rq);
    } else {
      RequestKept(before, step, rq);
      t := RequestFields(run, k - 1, rq);
      RequestCarried(run, t, k, rq, before.rqs[rq], At(run, k).rqs[rq]);
    }
  }

  lemma FieldsOf(run: seq<Step>, t: nat, b: nat, rq: nat, info: RqInfo)
    requires IsRequestOf(run, t, b, rq, info)
    ensures info.queueRq == LastTime(run, t + 1, b, rq, QueueTime)
    ensures info.rqStart == LastTime(run, t + 1, b, rq, StartTime)
    ensures info.word0 == LastTime(run, t + 1, b, rq, FirstWord)
    ensures info.word1 == LastTime(run, t + 1, b, rq, SecondWord)
  {
    assert Value(info, QueueTime) == LastTime(run, t + 1, b, rq, QueueTime);
    assert Value(info, StartTime) == LastTime(run, t + 1, b, rq, StartTime);
    assert Value(info, FirstWord) == LastTime(run, t + 1, b, rq, FirstWord);
    assert Value(info, SecondWord) == LastTime(run, t + 1, b, rq, SecondWord);
  }

  /** Every emitted request row holds, field by field, what the last of its request's probes since the tag
      wrote, and the figures of the accounting probe. */
  lemma RqRowFields(run: seq<Step>, k: nat, row: Record) returns (b: nat, t: nat)
    requires k <= |run| && row in RqRows(At(run, k).log)
    ensures b < k && EmitsRq(run, b) && row.RqRecord? && t < b
    ensures var info, rq, p := row.info, run[b].probe.rq, run[b].probe;
            && Tracks(run[t], rq) && Tags(run, t, rq, run[t].probe.bioPrivate, info.dioUid)
            && (forall i :: t < i < b ==> !Tracks(run[i], rq))
            && info.rqPtr == rq && info.rqBioStart == run[t].time
            && info.queueRq == LastTime(run, t + 1, b, rq, QueueTime)
            && info.rqStart == LastTime(run, t + 1, b, rq, StartTime)
            && info.word0 == LastTime(run, t + 1, b, rq, FirstWord)
            && info.word1 == LastTime(run, t + 1, b, rq, SecondWord)
            && info.drive == LastDrive(run, t + 1, b, rq)
            && info.accountIo == p.now && info.sector == p.sector && info.hctx == p.hctx
            && info.stats == p.stats && info.segments == p.segments
  {
    RowsComeFromSteps(run, k);
    b :| b < k && RqRowFrom(run, b, row);
    t := RequestFields(run, b, run[b].probe.rq);
    FieldsOf(run, t, b, run[b].probe.rq, At(run, b).rqs[run[b].probe.rq]);
  }

  // --- Queue records -----------------------------------------------------------------------------

  lemma NewQueueRecord(s: State, step: Step, r: Record)
    requires r in Next(s, step).log && r !in s.log && r.HctxRecord?
    ensures Fires(step) && step.probe.QueueRq? && step.probe.reserved && step.probe.rq in s.rqs
    ensures step.probe.hctx == r.hctx && step.time == r.tp
  {
  }

  /** Every queue record was written when a traced request was queued to that queue, at that time. */
  lemma {:induction false} QueueRecords(run: seq<Step>, k: nat, r: Record) returns (i: nat)
    requires k <= |run| && r in At(run, k).log && r.HctxRecord?
    ensures i < k && Fires(run[i]) && run[i].probe.QueueRq? && run[i].probe.reserved
    ensures run[i].probe.rq in At(run, i).rqs && run[i].probe.hctx == r.hctx && run[i].time == r.tp
    decreases k
  {
    if r in At(run, k - 1).log {
      i := QueueRecords(run, k - 1, r);
    } else {
      i := k - 1;
      NewQueueRecord(At(run, k - 1), run[k - 1], r);
    }
  }

  // --- What the filters reach --------------------------------------------------------------------

  /** A filter that rejects the process or the command stops every probe up to the start of a request. */
  lemma FiltersStop(s: State, step: Step)
    requires !step.passes
    requires || step.probe.SyncCall? || step.probe.DioIter? || step.probe.BioActor? || step.probe.Kfree?
             || step.probe.RqTrack? || step.probe.QueueRq? || step.probe.StartRequest?
    ensures Next(s, step) == s
  {
  }

  /** The completion probes run in whatever process is interrupted, and no filter stops them. */
  lemma CompletionsPass(s: State, step: Step)
    requires || step.probe.SoftirqDone? || step.probe.ScsiEnd? || step.probe.PciComplete?
             || step.probe.NvmeComplete? || step.probe.Account?
    ensures Next(s, step) == Next(s, step.(passes := !step.passes))
  {
  }

  // --- When something is traced at all -----------------------------------------------------------

  /** An event is cached unless there already is one for the iocb, or all of the 8192 places are taken. */
  lemma CachedIff(s: State, time: nat, write: bool, iocb: nat, inode: nat)
    ensures var after := OnDioIter(s, time, write, iocb, inode).events;
            && (iocb in after <==> iocb in s.events || |s.events| < 8192)
            && (iocb in s.events ==> after == s.events)
            && forall other :: other != iocb ==>
                 (other in after <==> other in s.events) && (other in after ==> after[other] == s.events[other])
  {
  }

  /** A dio gets a uid unless its address is new and all of the 256 places are taken. */
  lemma MintedIff(s: State, time: nat, dio: nat, iocb: nat)
    requires iocb in s.events
    ensures var after := OnBioActor(s, time, dio, iocb).filter;
            && (dio in after <==> dio in s.filter || |s.filter| < 256) && (dio in after ==> after[dio] == time)
            && forall other :: other != dio ==>
                 (other in after <==> other in s.filter) && (other in after ==> after[other] == s.filter[other])
  {
  }

  /** A request is cached if and only if its bio belongs to a known dio and one of the 512 places is free. */
  lemma TaggedIff(s: State, time: nat, rq: nat, bioPrivate: nat)
    ensures var after := OnTrack(s, time, rq, bioPrivate).rqs;
            && (rq in after <==> bioPrivate in s.filter && |s.rqs - {rq}| < 512)
            && forall other :: other != rq ==>
                 (other in after <==> other in s.rqs) && (other in after ==> after[other] == s.rqs[other])
  {
  }
}
