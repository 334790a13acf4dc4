/** Why joining the direct-I/O rows with the request rows on the uid is sound, over every
    interleaving of probes, pointer reuse, full maps and failed reservations. */
module DioJoin {
  import opened DioProbes
  import opened HashJoin

  /** The state after the first k steps of a run. */
  ghost function At(run: seq<Step>, k: nat): State
    requires k <= |run|
  {
    if k == 0 then START else Next(At(run, k - 1), run[k - 1])
  }

  /** The clock never reads the same twice. */
  ghost predicate Ticks(run: seq<Step>) {
    forall i, j :: 0 <= i < j < |run| ==> run[i].time < run[j].time
  }

  /** Nor does it read zero, which is what a fresh event holds. */
  ghost predicate Clock(run: seq<Step>) {
    Ticks(run) && forall i :: 0 <= i < |run| ==> run[i].time > 0
  }

  predicate Fires(step: Step) {
    Asks(step.probe) ==> step.passes
  }

  /** Step m gives the dio at `ptr` the uid. */
  ghost predicate Mints(run: seq<Step>, m: nat, ptr: nat, uid: nat) {
    && m < |run| && Fires(run[m]) && run[m].probe.BioActor?
    && run[m].probe.dio == ptr && run[m].probe.iocb in At(run, m).events
    && run[m].time == uid
  }

  predicate Stamps(step: Step, iocb: nat) {
    Fires(step) && step.probe.BioActor? && step.probe.iocb == iocb
  }

  /** The event of the iocb is in the cache all the time, hence the same one. */
  ghost predicate Stays(run: seq<Step>, lo: nat, hi: nat, iocb: nat)
    requires lo <= hi <= |run|
  {
    forall k :: lo <= k <= hi ==> iocb in At(run, k).events
  }

  /** Step m gives the uid to the dio at `ptr` for the very event that step a takes out of the cache. */
  ghost predicate MintsFor(run: seq<Step>, m: nat, a: nat, ptr: nat, uid: nat) {
    && m < a < |run| && run[a].probe.Kfree? && Mints(run, m, ptr, uid)
    && run[m].probe.iocb == run[a].probe.iocb
    && Stays(run, m, a, run[a].probe.iocb)
  }

  /** Step t creates a cached request for a bio whose private pointer carries the uid. */
  ghost predicate Tags(run: seq<Step>, t: nat, rq: nat, ptr: nat, uid: nat) {
    && t < |run| && Fires(run[t]) && run[t].probe == RqTrack(rq, ptr)
    && ptr in At(run, t).filter && At(run, t).filter[ptr] == uid
  }

  /** Step a emits the dio that is being freed at `ptr`. */
  ghost predicate EmitsDio(run: seq<Step>, a: nat, ptr: nat) {
    && a < |run| && Fires(run[a]) && run[a].probe.Kfree? && run[a].probe.reserved
    && run[a].probe.ptr == ptr && run[a].probe.iocb in At(run, a).events
  }

  /** The uid of that emission was looked up, not left over. */
  ghost predicate Hit(run: seq<Step>, a: nat) {
    a < |run| && run[a].probe.Kfree? && run[a].probe.ptr in At(run, a).filter
  }

  ghost predicate EmitsRq(run: seq<Step>, b: nat) {
    b < |run| && run[b].probe.Account? && run[b].probe.reserved && run[b].probe.rq in At(run, b).rqs
  }

  // --- Where entries come from -------------------------------------------------------------------

  lemma OnlyActorMints(s: State, step: Step, ptr: nat)
    requires ptr in Next(s, step).filter
    requires !(ptr in s.filter && s.filter[ptr] == Next(s, step).filter[ptr])
    ensures Fires(step) && step.probe.BioActor? && step.probe.dio == ptr && step.probe.iocb in s.events
    ensures Next(s, step).filter[ptr] == step.time
  {
  }

  /** An entry of the uid map was already there k0 steps into the run, or was minted since. */
  lemma {:induction false} FilterProvenance(run: seq<Step>, k0: nat, k: nat, ptr: nat)
    requires k0 <= k <= |run| && ptr in At(run, k).filter
    ensures (ptr in At(run, k0).filter && At(run, k0).filter[ptr] == At(run, k).filter[ptr])
            || exists m :: k0 <= m < k && Mints(run, m, ptr, At(run, k).filter[ptr])
  {
    if k0 == k {
    } else {
      var uid := At(run, k).filter[ptr];
      var before := At(run, k - 1);
      if ptr in before.filter && before.filter[ptr] == uid {
        FilterProvenance(run, k0, k - 1, ptr);
      } else {
        OnlyActorMints(before, run[k - 1], ptr);
        assert Mints(run, k - 1, ptr, uid);
      }
    }
  }

  predicate SameTag(a: RqInfo, b: RqInfo) {
    a.dioUid == b.dioUid && a.rqPtr == b.rqPtr && a.rqBioStart == b.rqBioStart
  }

  lemma TrackTags(s: State, time: nat, rq: nat, bioPrivate: nat, key: nat)
    requires key in OnTrack(s, time, rq, bioPrivate).rqs
    ensures var info := OnTrack(s, time, rq, bioPrivate).rqs[key];
            || (key in s.rqs && info == s.rqs[key])
            || (key == rq && bioPrivate in s.filter && info == Tagged(rq, s.filter[bioPrivate], time))
  {
  }

  lemma StampKeepsTag(s: State, time: nat, rq: nat, probe: Probe, key: nat)
    requires key in OnStamp(s, time, rq, probe).rqs
    ensures key in s.rqs && SameTag(s.rqs[key], OnStamp(s, time, rq, probe).rqs[key])
  {
  }

  lemma RequestsKeepTheirTag(s: State, step: Step, rq: nat)
    requires rq in Next(s, step).rqs
    ensures var info := Next(s, step).rqs[rq];
            || (rq in s.rqs && SameTag(s.rqs[rq], info))
            || (&& Fires(step) && step.probe.RqTrack? && step.probe.rq == rq
                && step.probe.bioPrivate in s.filter
                && info == Tagged(rq, s.filter[step.probe.bioPrivate], step.time))
  {
    if Fires(step) {
      match step.probe
      case SyncCall(_, _) =>
      case DioIter(_, _, _, _) =>
      case BioActor(_, _) =>
      case Kfree(_, _, _, _, _) =>
      case RqTrack(r, bioPrivate) => TrackTags(s, step.time, r, bioPrivate, rq);
      case QueueRq(_, _, _) =>
      case Account(_, _, _, _, _, _, _) =>
      case _ => StampKeepsTag(s, step.time, step.probe.rq, step.probe, rq);
    }
  }

  /** Every cached request was tagged, and keeps the uid, pointer and time of its tag. */
  lemma {:induction false} CacheProvenance(run: seq<Step>, k: nat, rq: nat)
    requires k <= |run| && rq in At(run, k).rqs
    ensures var info := At(run, k).rqs[rq];
            && info.rqPtr == rq
            && exists t: nat, ptr :: t < k && Tags(run, t, rq, ptr, info.dioUid) && run[t].time == info.rqBioStart
  {
    if k == 0 {
    } else {
      var before, after := At(run, k - 1), At(run, k);
      RequestsKeepTheirTag(before, run[k - 1], rq);
      if rq in before.rqs && SameTag(before.rqs[rq], after.rqs[rq]) {
        CacheProvenance(run, k - 1, rq);
      } else {
        assert Tags(run, k - 1, rq, run[k - 1].probe.bioPrivate, after.rqs[rq].dioUid);
      }
    }
  }

  lemma MintedOnce(run: seq<Step>, m: nat, m': nat, ptr: nat, ptr': nat, uid: nat)
    requires Ticks(run) && Mints(run, m, ptr, uid) && Mints(run, m', ptr', uid)
    ensures m == m' && ptr == ptr'
  {
  }

  lemma NotMintedAgain(run: seq<Step>, m: nat, ptr: nat, uid: nat, lo: nat)
    requires Ticks(run) && Mints(run, m, ptr, uid) && m < lo
    ensures forall again: nat :: lo <= again ==> !Mints(run, again, ptr, uid)
  {
    forall again: nat | lo <= again && Mints(run, again, ptr, uid)
      ensures false
    {
      MintedOnce(run, m, again, ptr, ptr, uid);
    }
  }

  lemma MintOf(run: seq<Step>, k: nat, ptr: nat) returns (m: nat)
    requires k <= |run| && ptr in At(run, k).filter
    ensures m < k && Mints(run, m, ptr, At(run, k).filter[ptr])
  {
    FilterProvenance(run, 0, k, ptr);
    m :| 0 <= m < k && Mints(run, m, ptr, At(run, k).filter[ptr]);
  }

  lemma EmissionForgets(run: seq<Step>, a: nat, ptr: nat)
    requires EmitsDio(run, a, ptr)
    ensures ptr !in At(run, a + 1).filter
  {
  }

  /** Once a dio was emitted under a uid, no later state maps any pointer to that uid. */
  lemma UidIsRetired(run: seq<Step>, a: nat, ptr: nat, k: nat, ptr': nat)
    requires Ticks(run) && EmitsDio(run, a, ptr) && Hit(run, a) && a < k <= |run|
    ensures ptr' in At(run, k).filter ==> At(run, k).filter[ptr'] != At(run, a).filter[ptr]
  {
    var uid := At(run, a).filter[ptr];
    if ptr' in At(run, k).filter && At(run, k).filter[ptr'] == uid {
      var m := MintOf(run, a, ptr);
      var m' := MintOf(run, k, ptr');
      MintedOnce(run, m, m', ptr, ptr', uid);
      EmissionForgets(run, a, ptr);
      NotMintedAgain(run, m, ptr, uid, a + 1);
      FilterProvenance(run, a + 1, k, ptr);
    }
  }

  // --- The event and its uid ---------------------------------------------------------------------

  /** The last actor call on the event, which is still the one cached k steps into the run. */
  ghost predicate LastStamp(run: seq<Step>, m: nat, k: nat, iocb: nat) {
    && m < k <= |run| && Stamps(run[m], iocb) && Stays(run, m, k, iocb)
    && forall i :: m < i < k ==> !Stamps(run[i], iocb)
  }

  lemma EventStep(s: State, step: Step, iocb: nat)
    requires iocb in Next(s, step).events
    ensures iocb !in s.events ==> Next(s, step).events[iocb].startBlockIo == 0
    ensures iocb in s.events ==>
              Next(s, step).events[iocb].startBlockIo
              == if Stamps(step, iocb) then step.time else s.events[iocb].startBlockIo
  {
  }

  /** The start time in a cached event is that of the last actor call on it, or still zero. */
  lemma {:induction false} EventProvenance(run: seq<Step>, k: nat, iocb: nat)
    requires k <= |run| && iocb in At(run, k).events
    ensures var start := At(run, k).events[iocb].startBlockIo;
            start == 0 || exists m: nat :: LastStamp(run, m, k, iocb) && run[m].time == start
  {
    if k == 0 {
    } else {
      var start := At(run, k).events[iocb].startBlockIo;
      EventStep(At(run, k - 1), run[k - 1], iocb);
      if iocb in At(run, k - 1).events {
        if Stamps(run[k - 1], iocb) {
          assert LastStamp(run, k - 1, k, iocb);
        } else if start != 0 {
          EventProvenance(run, k - 1, iocb);
          var m: nat :| LastStamp(run, m, k - 1, iocb) && run[m].time == start;
          assert LastStamp(run, m, k, iocb);
        }
      }
    }
  }

  lemma {:induction false} StampStays(run: seq<Step>, m: nat, k: nat, iocb: nat)
    requires LastStamp(run, m, k, iocb)
    ensures iocb in At(run, k).events && At(run, k).events[iocb].startBlockIo == run[m].time
    decreases k
  {
    assert iocb in At(run, k - 1).events && iocb in At(run, k).events;
    EventStep(At(run, k - 1), run[k - 1], iocb);
    if k == m + 1 {
    } else {
      StampStays(run, m, k - 1, iocb);
    }
  }

  /** The uid that is looked up is the start time in the event: both are in the emitted row. */
  ghost predicate HasOwnUid(run: seq<Step>, a: nat, ptr: nat)
    requires EmitsDio(run, a, ptr)
  {
    Hit(run, a) && At(run, a).events[run[a].probe.iocb].startBlockIo == At(run, a).filter[ptr]
  }

  /** That is so if and only if the uid was given to this dio for this very event, by the last actor
      call on it: neither the address nor the uid is left over from an earlier dio. */
  lemma HasOwnUidIff(run: seq<Step>, a: nat, ptr: nat)
    requires Clock(run) && EmitsDio(run, a, ptr) && Hit(run, a)
    ensures HasOwnUid(run, a, ptr)
            <==> exists m: nat ::
                   MintsFor(run, m, a, ptr, At(run, a).filter[ptr]) && LastStamp(run, m, a, run[a].probe.iocb)
  {
    var iocb, uid := run[a].probe.iocb, At(run, a).filter[ptr];
    var mint := MintOf(run, a, ptr);
    if HasOwnUid(run, a, ptr) {
      EventProvenance(run, a, iocb);
      var m: nat :| LastStamp(run, m, a, iocb) && run[m].time == uid;
      assert m == mint;
      assert MintsFor(run, m, a, ptr, uid);
    }
    if m: nat :| MintsFor(run, m, a, ptr, uid) && LastStamp(run, m, a, iocb) {
      StampStays(run, m, a, iocb);
    }
  }

  // --- Soundness of the join ---------------------------------------------------------------------

  /** The request was tagged after the uid was minted for this very dio and before the dio was
      emitted, from a bio whose private pointer was the dio's pointer. */
  ghost predicate BelongsTo(run: seq<Step>, a: nat, info: RqInfo, ptr: nat) {
    exists m: nat, t: nat :: m < t < a && MintsFor(run, m, a, ptr, info.dioUid)
                   && Tags(run, t, info.rqPtr, ptr, info.dioUid) && run[t].time == info.rqBioStart
  }

  ghost function RqEmitted(run: seq<Step>, b: nat): RqInfo
    requires EmitsRq(run, b)
  {
    var p := run[b].probe;
    Accounted(At(run, b).rqs[p.rq], p.now, p.sector, p.hctx, p.stats, p.segments)
  }

  lemma TagOf(run: seq<Step>, b: nat) returns (t: nat, ptr: nat, m: nat)
    requires EmitsRq(run, b)
    ensures var info := RqEmitted(run, b);
            && m < t < b && Mints(run, m, ptr, info.dioUid)
            && Tags(run, t, info.rqPtr, ptr, info.dioUid) && run[t].time == info.rqBioStart
  {
    var rq := run[b].probe.rq;
    CacheProvenance(run, b, rq);
    var info := At(run, b).rqs[rq];
    t, ptr :| t < b && Tags(run, t, rq, ptr, info.dioUid) && run[t].time == info.rqBioStart;
    m := MintOf(run, t, ptr);
  }

  /** A request that shares the looked-up uid was tagged under the dio's pointer, after the uid was
      given to it and before the emission; whether for this dio or an earlier one is left open. */
  lemma TaggedInBetween(run: seq<Step>, a: nat, ptr: nat, b: nat) returns (m: nat, t: nat)
    requires Ticks(run) && EmitsDio(run, a, ptr) && Hit(run, a) && EmitsRq(run, b)
    requires RqEmitted(run, b).dioUid == At(run, a).filter[ptr]
    ensures var info := RqEmitted(run, b);
            && m < t < a && Mints(run, m, ptr, info.dioUid)
            && Tags(run, t, info.rqPtr, ptr, info.dioUid) && run[t].time == info.rqBioStart
  {
    var ptr', m';
    t, ptr', m' := TagOf(run, b);
    m := MintOf(run, a, ptr);
    MintedOnce(run, m, m', ptr, ptr', RqEmitted(run, b).dioUid);
    if a < t {
      UidIsRetired(run, a, ptr, t, ptr');
    }
  }

  lemma MintedForIsShared(run: seq<Step>, a: nat, ptr: nat, b: nat, m: nat)
    requires Ticks(run) && EmitsDio(run, a, ptr) && Hit(run, a) && EmitsRq(run, b)
    requires RqEmitted(run, b).dioUid == At(run, a).filter[ptr] && MintsFor(run, m, a, ptr, At(run, a).filter[ptr])
    ensures BelongsTo(run, a, RqEmitted(run, b), ptr)
  {
    var m', t := TaggedInBetween(run, a, ptr, b);
    MintedOnce(run, m, m', ptr, ptr, At(run, a).filter[ptr]);
  }

  /** A dio that is emitted under its own uid is joined only with requests of its own. */
  lemma JoinIsSound(run: seq<Step>, a: nat, ptr: nat, b: nat)
    requires Clock(run) && EmitsDio(run, a, ptr) && HasOwnUid(run, a, ptr) && EmitsRq(run, b)
    requires RqEmitted(run, b).dioUid == At(run, a).filter[ptr]
    ensures BelongsTo(run, a, RqEmitted(run, b), ptr)
  {
    HasOwnUidIff(run, a, ptr);
    var m: nat :| MintsFor(run, m, a, ptr, At(run, a).filter[ptr]);
    MintedForIsShared(run, a, ptr, b, m);
  }

  // --- Completeness of the join ------------------------------------------------------------------

  /** Between two steps no actor call gives the pointer a new uid, and no emission forgets it. */
  ghost predicate Undisturbed(run: seq<Step>, lo: nat, hi: nat, ptr: nat)
    requires hi <= |run|
  {
    forall k :: lo <= k < hi ==> !Mints(run, k, ptr, run[k].time) && !EmitsDio(run, k, ptr)
  }

  lemma FilterStep(s: State, step: Step, ptr: nat)
    requires ptr in s.filter
    requires !(Fires(step) && step.probe.BioActor? && step.probe.dio == ptr && step.probe.iocb in s.events)
    requires !(Fires(step) && step.probe.Kfree? && step.probe.reserved && step.probe.ptr == ptr
              && step.probe.iocb in s.events)
    ensures ptr in Next(s, step).filter && Next(s, step).filter[ptr] == s.filter[ptr]
  {
  }

  lemma {:induction false} UidStays(run: seq<Step>, lo: nat, hi: nat, ptr: nat)
    requires lo <= hi <= |run| && ptr in At(run, lo).filter && Undisturbed(run, lo, hi, ptr)
    ensures ptr in At(run, hi).filter && At(run, hi).filter[ptr] == At(run, lo).filter[ptr]
    decreases hi
  {
    if lo == hi {
    } else {
      UidStays(run, lo, hi - 1, ptr);
      assert !Mints(run, hi - 1, ptr, run[hi - 1].time) && !EmitsDio(run, hi - 1, ptr);
      FilterStep(At(run, hi - 1), run[hi - 1], ptr);
    }
  }

  lemma MintReplaces(run: seq<Step>, k: nat, ptr: nat)
    requires k < |run| && Mints(run, k, ptr, run[k].time) && ptr in At(run, k + 1).filter
    ensures At(run, k + 1).filter[ptr] == run[k].time
  {
  }

  lemma DisturbedForgets(run: seq<Step>, t: nat, k: nat, a: nat, ptr: nat, m: nat)
    requires Ticks(run) && m < t < k < a <= |run| && ptr in At(run, a).filter
    requires Mints(run, k, ptr, run[k].time) || EmitsDio(run, k, ptr)
    ensures At(run, a).filter[ptr] != run[m].time
  {
    FilterProvenance(run, k + 1, a, ptr);
    if ptr in At(run, k + 1).filter {
      if EmitsDio(run, k, ptr) {
        EmissionForgets(run, k, ptr);
      } else {
        MintReplaces(run, k, ptr);
      }
    }
  }

  /** A request tagged under a pointer carries the uid that a later emission of that pointer looks up
      if and only if nothing gave the pointer a new uid, or forgot it, in between. */
  lemma JoinIsCompleteIff(run: seq<Step>, t: nat, a: nat, rq: nat, ptr: nat, uid: nat)
    requires Ticks(run) && t < a && Tags(run, t, rq, ptr, uid) && EmitsDio(run, a, ptr) && Hit(run, a)
    ensures At(run, a).filter[ptr] == uid <==> Undisturbed(run, t + 1, a, ptr)
  {
    if Undisturbed(run, t + 1, a, ptr) {
      UidStays(run, t, a, ptr);
    } else {
      var k :| t + 1 <= k < a && (Mints(run, k, ptr, run[k].time) || EmitsDio(run, k, ptr));
      var m := MintOf(run, t, ptr);
      DisturbedForgets(run, t, k, a, ptr, m);
    }
  }

  /** No two emissions that found their uid share it: a request row joins at most one of them. */
  lemma EmittedUidsDiffer(run: seq<Step>, a: nat, ptr: nat, a': nat, ptr': nat)
    requires Ticks(run) && a < a'
    requires EmitsDio(run, a, ptr) && Hit(run, a) && EmitsDio(run, a', ptr') && Hit(run, a')
    ensures At(run, a).filter[ptr] != At(run, a').filter[ptr']
  {
    UidIsRetired(run, a, ptr, a', ptr');
  }

  // --- The tables the analysis joins -------------------------------------------------------------

  function DioRows(log: seq<Record>): seq<Record> {
    if log == [] then []
    else
      var last := log[|log| - 1];
      DioRows(log[..|log| - 1]) + (if last.DioRecord? then [last] else [])
  }

  function RqRows(log: seq<Record>): seq<Record> {
    if log == [] then []
    else
      var last := log[|log| - 1];
      RqRows(log[..|log| - 1]) + (if last.RqRecord? then [last] else [])
  }

  /** The first column of both tables. */
  function Uids(rows: seq<Record>): seq<nat> {
    seq(|rows|, i requires 0 <= i < |rows| =>
      match rows[i]
      case DioRecord(uid, _) => uid
      case RqRecord(info) => info.dioUid
      case HctxRecord(_, _) => 0)
  }

  lemma StepLogs(s: State, step: Step)
    ensures var log := Next(s, step).log;
            || log == s.log
            || (|log| == |s.log| + 1 && log[..|s.log|] == s.log)
  {
  }

  ghost predicate DioRowFrom(run: seq<Step>, a: nat, row: Record) {
    && a < |run| && run[a].probe.Kfree? && EmitsDio(run, a, run[a].probe.ptr) && row.DioRecord?
    && (Hit(run, a) ==> row.dioUid == At(run, a).filter[run[a].probe.ptr])
    && row.event == At(run, a).events[run[a].probe.iocb].(endBlockIo := run[a].time, size := run[a].probe.size)
  }

  ghost predicate RqRowFrom(run: seq<Step>, b: nat, row: Record) {
    EmitsRq(run, b) && row == RqRecord(RqEmitted(run, b))
  }

  lemma {:induction false} RowsComeFromSteps(run: seq<Step>, k: nat)
    requires k <= |run|
    ensures forall row :: row in DioRows(At(run, k).log) ==> exists a: nat :: a < k && DioRowFrom(run, a, row)
    ensures forall row :: row in RqRows(At(run, k).log) ==> exists b: nat :: b < k && RqRowFrom(run, b, row)
  {
    if k == 0 {
    } else {
      RowsComeFromSteps(run, k - 1);
      var s, step := At(run, k - 1), run[k - 1];
      StepLogs(s, step);
      var log := At(run, k).log;
      if log != s.log {
        var last := log[|log| - 1];
        if last.DioRecord? {
          assert DioRowFrom(run, k - 1, last);
        } else if last.RqRecord? {
          assert RqRowFrom(run, k - 1, last);
        }
      }
    }
  }

  /** The analysis pairs a dio row with a request row only when they share a uid. If that uid is also
      the start time in the dio row, and was not left over, the request belongs to that dio. */
  lemma JoinedRowsBelong(run: seq<Step>, i: nat, j: nat)
    requires Clock(run)
    requires var log := At(run, |run|).log; (i, j) in NestedLoop(Uids(DioRows(log)), Uids(RqRows(log)))
    ensures var log := At(run, |run|).log;
            && i < |DioRows(log)| && j < |RqRows(log)| && RqRows(log)[j].RqRecord?
            && exists a: nat, b: nat ::
                 && DioRowFrom(run, a, DioRows(log)[i]) && RqRowFrom(run, b, RqRows(log)[j])
                 && (Hit(run, a) && DioRows(log)[i].dioUid == DioRows(log)[i].event.startBlockIo ==>
                       BelongsTo(run, a, RqRows(log)[j].info, run[a].probe.ptr))
  {
    var log := At(run, |run|).log;
    NestedLoopComplete(Uids(DioRows(log)), Uids(RqRows(log)), i, j);
    RowsComeFromSteps(run, |run|);
    var dio, rq := DioRows(log)[i], RqRows(log)[j];
    assert dio in DioRows(log) && rq in RqRows(log);
    var a: nat :| a < |run| && DioRowFrom(run, a, dio);
    var b: nat :| b < |run| && RqRowFrom(run, b, rq);
    assert Uids(DioRows(log))[i] == dio.dioUid && Uids(RqRows(log))[j] == rq.info.dioUid;
    if Hit(run, a) && dio.dioUid == dio.event.startBlockIo {
      JoinIsSound(run, a, run[a].probe.ptr, b);
    }
  }

  // --- The excluded case -------------------------------------------------------------------------

  /** The emitted uid is independent of what the fresh record held exactly when it was looked up. */
  lemma UidIsDeterminedIff(s: State, time: nat, ptr: nat, iocb: nat, size: int)
    requires iocb in s.events
    ensures (forall g, g' :: OnKfree(s, time, ptr, iocb, size, true, g) == OnKfree(s, time, ptr, iocb, size, true, g'))
            <==> ptr in s.filter
  {
    if ptr !in s.filter {
      var one, two := OnKfree(s, time, ptr, iocb, size, true, 1), OnKfree(s, time, ptr, iocb, size, true, 2);
      assert one.log[|s.log|].dioUid != two.log[|s.log|].dioUid;
    }
  }

  /** The same run, in which the record reserved at step a held something else. */
  function Refilled(run: seq<Step>, a: nat, garbage: nat): seq<Step>
    requires a < |run| && run[a].probe.Kfree?
  {
    run[a := run[a].(probe := run[a].probe.(garbage := garbage))]
  }

  predicate SameButLog(s: State, t: State) {
    && s.writeStart == t.writeStart && s.readStart == t.readStart
    && s.events == t.events && s.filter == t.filter && s.rqs == t.rqs
  }

  lemma KfreeKeepsSame(s: State, t: State, time: nat, ptr: nat, iocb: nat, size: int, reserved: bool, garbage: nat)
    requires SameButLog(s, t)
    ensures SameButLog(OnKfree(s, time, ptr, iocb, size, reserved, garbage),
              OnKfree(t, time, ptr, iocb, size, reserved, garbage))
  {
  }

  lemma RequestKeepsSame(s: State, t: State, step: Step)
    requires SameButLog(s, t)
    requires step.probe.QueueRq? || step.probe.Account?
    ensures SameButLog(Next(s, step), Next(t, step))
  {
  }

  lemma StepKeepsSame(s: State, t: State, step: Step)
    requires SameButLog(s, t)
    ensures SameButLog(Next(s, step), Next(t, step))
  {
    match step.probe
    case Kfree(ptr, iocb, size, reserved, garbage) => KfreeKeepsSame(s, t, step.time, ptr, iocb, size, reserved,
        garbage);
    case Account(_, _, _, _, _, _, _) => RequestKeepsSame(s, t, step);
    case QueueRq(_, _, _) => RequestKeepsSame(s, t, step);
    case _ => assert s == t.(log := s.log);
  }

  lemma GarbageIsLogged(s: State, step: Step, garbage: nat)
    requires step.probe.Kfree?
    ensures SameButLog(Next(s, step), Next(s, step.(probe := step.probe.(garbage := garbage))))
  {
  }

  /** What a fresh record holds changes nothing outside the log, ever. */
  lemma {:induction false} GarbageStaysInLog(run: seq<Step>, a: nat, garbage: nat, k: nat)
    requires a < |run| && run[a].probe.Kfree? && k <= |run|
    ensures SameButLog(At(run, k), At(Refilled(run, a, garbage), k))
  {
    if k == 0 {
    } else {
      var run' := Refilled(run, a, garbage);
      GarbageStaysInLog(run, a, garbage, k - 1);
      StepKeepsSame(At(run, k - 1), At(run', k - 1), run'[k - 1]);
      if k - 1 == a {
        GarbageIsLogged(At(run, a), run[a], garbage);
      }
    }
  }

  lemma SameMintsAndTags(run: seq<Step>, a: nat, garbage: nat, k: nat)
    requires a < |run| && run[a].probe.Kfree?
    ensures var run' := Refilled(run, a, garbage);
            && (forall ptr, uid :: Mints(run, k, ptr, uid) <==> Mints(run', k, ptr, uid))
            && (forall rq, ptr, uid :: Tags(run, k, rq, ptr, uid) <==> Tags(run', k, rq, ptr, uid))
            && (EmitsRq(run, k) <==> EmitsRq(run', k))
            && (EmitsRq(run, k) ==> RqEmitted(run, k) == RqEmitted(run', k))
            && (Hit(run, k) <==> Hit(run', k))
            && (forall ptr :: EmitsDio(run, k, ptr) <==> EmitsDio(run', k, ptr))
  {
    if k < |run| {
      GarbageStaysInLog(run, a, garbage, k);
    }
  }

  lemma SameMintsFor(run: seq<Step>, a: nat, garbage: nat, m: nat, ptr: nat, uid: nat)
    requires a < |run| && run[a].probe.Kfree?
    ensures MintsFor(run, m, a, ptr, uid) <==> MintsFor(Refilled(run, a, garbage), m, a, ptr, uid)
  {
    SameMintsAndTags(run, a, garbage, m);
    forall k: nat | k <= a
      ensures At(run, k).events == At(Refilled(run, a, garbage), k).events
    {
      GarbageStaysInLog(run, a, garbage, k);
    }
  }

  lemma SameOwner(run: seq<Step>, a: nat, garbage: nat, info: RqInfo, ptr: nat)
    requires a < |run| && run[a].probe.Kfree?
    ensures BelongsTo(run, a, info, ptr) <==> BelongsTo(Refilled(run, a, garbage), a, info, ptr)
  {
    var run' := Refilled(run, a, garbage);
    forall k: nat
      ensures MintsFor(run, k, a, ptr, info.dioUid) <==> MintsFor(run', k, a, ptr, info.dioUid)
      ensures Tags(run, k, info.rqPtr, ptr, info.dioUid) <==> Tags(run', k, info.rqPtr, ptr, info.dioUid)
    {
      SameMintsAndTags(run, a, garbage, k);
      SameMintsFor(run, a, garbage, k, ptr, info.dioUid);
    }
  }

  /** The uid in the row that step a writes. */
  ghost function EmittedUid(run: seq<Step>, a: nat, ptr: nat): nat
    requires EmitsDio(run, a, ptr)
  {
    At(run, a + 1).log[|At(run, a).log|].dioUid
  }

  /** Every request that the row of step a is joined with belongs to the dio. */
  ghost predicate JoinsOnlyItsOwn(run: seq<Step>, a: nat, ptr: nat)
    requires EmitsDio(run, a, ptr)
  {
    forall b :: EmitsRq(run, b) && RqEmitted(run, b).dioUid == EmittedUid(run, a, ptr) ==>
      BelongsTo(run, a, RqEmitted(run, b), ptr)
  }

  lemma RefilledUid(run: seq<Step>, a: nat, ptr: nat, garbage: nat)
    requires EmitsDio(run, a, ptr)
    ensures EmitsDio(Refilled(run, a, garbage), a, ptr)
    ensures EmittedUid(Refilled(run, a, garbage), a, ptr) == if Hit(run, a) then At(run, a).filter[ptr] else garbage
  {
    SameMintsAndTags(run, a, garbage, a);
    GarbageStaysInLog(run, a, garbage, a);
  }

  /** Every emitted request that could share the uid of the row belongs to the dio: with a looked-up uid
      those that carry it, and any request otherwise. */
  ghost predicate NoForeignRequest(run: seq<Step>, a: nat, ptr: nat)
    requires EmitsDio(run, a, ptr)
  {
    forall b :: EmitsRq(run, b) && (Hit(run, a) ==> RqEmitted(run, b).dioUid == At(run, a).filter[ptr]) ==>
      BelongsTo(run, a, RqEmitted(run, b), ptr)
  }

  lemma AnyRefillJoins(run: seq<Step>, a: nat, ptr: nat, garbage: nat)
    requires EmitsDio(run, a, ptr) && NoForeignRequest(run, a, ptr)
    ensures EmitsDio(Refilled(run, a, garbage), a, ptr) && JoinsOnlyItsOwn(Refilled(run, a, garbage), a, ptr)
  {
    var run' := Refilled(run, a, garbage);
    RefilledUid(run, a, ptr, garbage);
    forall b | EmitsRq(run', b) && RqEmitted(run', b).dioUid == EmittedUid(run', a, ptr)
      ensures BelongsTo(run', a, RqEmitted(run', b), ptr)
    {
      SameMintsAndTags(run, a, garbage, b);
      SameOwner(run, a, garbage, RqEmitted(run, b), ptr);
    }
  }

  lemma ForeignRefill(run: seq<Step>, a: nat, ptr: nat, b: nat)
    requires EmitsDio(run, a, ptr) && EmitsRq(run, b) && !BelongsTo(run, a, RqEmitted(run, b), ptr)
    requires Hit(run, a) ==> RqEmitted(run, b).dioUid == At(run, a).filter[ptr]
    ensures var run' := Refilled(run, a, RqEmitted(run, b).dioUid);
            EmitsDio(run', a, ptr) && !JoinsOnlyItsOwn(run', a, ptr)
  {
    var uid := RqEmitted(run, b).dioUid;
    RefilledUid(run, a, ptr, uid);
    SameMintsAndTags(run, a, uid, b);
    SameOwner(run, a, uid, RqEmitted(run, b), ptr);
  }

  lemma RefillsJoinIff(run: seq<Step>, a: nat, ptr: nat)
    requires EmitsDio(run, a, ptr)
    ensures forall garbage :: EmitsDio(Refilled(run, a, garbage), a, ptr)
    ensures (forall garbage: nat :: JoinsOnlyItsOwn(Refilled(run, a, garbage), a, ptr))
              <==> NoForeignRequest(run, a, ptr)
  {
    forall garbage
      ensures EmitsDio(Refilled(run, a, garbage), a, ptr)
    {
      RefilledUid(run, a, ptr, garbage);
    }
    if NoForeignRequest(run, a, ptr) {
      forall garbage: nat
        ensures JoinsOnlyItsOwn(Refilled(run, a, garbage), a, ptr)
      {
        AnyRefillJoins(run, a, ptr, garbage);
      }
    } else {
      var b :| EmitsRq(run, b) && (Hit(run, a) ==> RqEmitted(run, b).dioUid == At(run, a).filter[ptr])
               && !BelongsTo(run, a, RqEmitted(run, b), ptr);
      ForeignRefill(run, a, ptr, b);
      assert !JoinsOnlyItsOwn(Refilled(run, a, RqEmitted(run, b).dioUid), a, ptr);
    }
  }

  /** The uid that is looked up was given to this dio for this very event. */
  ghost predicate WasGivenItsUid(run: seq<Step>, a: nat, ptr: nat)
    requires EmitsDio(run, a, ptr)
  {
    Hit(run, a) && exists m: nat :: MintsFor(run, m, a, ptr, At(run, a).filter[ptr])
  }

  lemma UngivenIsForeign(run: seq<Step>, a: nat, ptr: nat, info: RqInfo)
    requires EmitsDio(run, a, ptr) && Hit(run, a) && !WasGivenItsUid(run, a, ptr)
    requires info.dioUid == At(run, a).filter[ptr]
    ensures !BelongsTo(run, a, info, ptr)
  {
  }

  /** No request is emitted with the uid that was looked up; or none but the dio's own, if none was. */
  ghost predicate EmitsNothingToMistake(run: seq<Step>, a: nat, ptr: nat)
    requires EmitsDio(run, a, ptr)
  {
    if Hit(run, a) then forall b :: EmitsRq(run, b) ==> RqEmitted(run, b).dioUid != At(run, a).filter[ptr]
    else forall b :: EmitsRq(run, b) ==> BelongsTo(run, a, RqEmitted(run, b), ptr)
  }

  /** Whatever the fresh record held, the row of an emitted dio joins only requests of that dio, if and
      only if its uid was given to it, or the run emits no request that could be mistaken for one of
      its: none with the uid that was looked up, or none at all but its own if none was. */
  lemma JoinsOnlyItsOwnIff(run: seq<Step>, a: nat, ptr: nat)
    requires Ticks(run) && EmitsDio(run, a, ptr)
    ensures forall garbage :: EmitsDio(Refilled(run, a, garbage), a, ptr)
    ensures (forall garbage: nat :: JoinsOnlyItsOwn(Refilled(run, a, garbage), a, ptr))
            <==> WasGivenItsUid(run, a, ptr) || EmitsNothingToMistake(run, a, ptr)
  {
    RefillsJoinIff(run, a, ptr);
    if WasGivenItsUid(run, a, ptr) {
      var m: nat :| MintsFor(run, m, a, ptr, At(run, a).filter[ptr]);
      forall b | EmitsRq(run, b) && RqEmitted(run, b).dioUid == At(run, a).filter[ptr]
        ensures BelongsTo(run, a, RqEmitted(run, b), ptr)
      {
        MintedForIsShared(run, a, ptr, b, m);
      }
    } else if Hit(run, a) {
      forall b | EmitsRq(run, b) && RqEmitted(run, b).dioUid == At(run, a).filter[ptr]
        ensures !BelongsTo(run, a, RqEmitted(run, b), ptr)
      {
        UngivenIsForeign(run, a, ptr, RqEmitted(run, b));
      }
    }
  }

  /** While its event is cached, the iocb serves no other dio. */
  ghost predicate ServesOnly(run: seq<Step>, a: nat, ptr: nat) {
    && a < |run| && run[a].probe.Kfree?
    && forall k :: 0 <= k < a && Stamps(run[k], run[a].probe.iocb) && Stays(run, k, a, run[a].probe.iocb) ==>
         run[k].probe.dio == ptr
  }

  lemma LaterMintReplaces(run: seq<Step>, m: nat, k: nat, a: nat, ptr: nat)
    requires Ticks(run) && m < k < a <= |run| && ptr in At(run, a).filter && Mints(run, k, ptr, run[k].time)
    ensures At(run, a).filter[ptr] != run[m].time
  {
    FilterProvenance(run, k + 1, a, ptr);
    if ptr in At(run, k + 1).filter {
      MintReplaces(run, k, ptr);
    }
  }

  lemma GivenLast(run: seq<Step>, a: nat, ptr: nat, m: nat)
    requires Clock(run) && EmitsDio(run, a, ptr) && Hit(run, a) && ServesOnly(run, a, ptr)
    requires MintsFor(run, m, a, ptr, At(run, a).filter[ptr])
    ensures LastStamp(run, m, a, run[a].probe.iocb)
  {
    var iocb := run[a].probe.iocb;
    forall k | m < k < a
      ensures !Stamps(run[k], iocb)
    {
      if Stamps(run[k], iocb) {
        assert iocb in At(run, k).events && Stays(run, k, a, iocb);
        assert Mints(run, k, ptr, run[k].time);
        LaterMintReplaces(run, m, k, a, ptr);
      }
    }
  }

  /** With one dio per iocb, whether a dio was given its uid can be read off its row: the uid is the
      start time in the event. */
  lemma WasGivenItsUidIff(run: seq<Step>, a: nat, ptr: nat)
    requires Clock(run) && EmitsDio(run, a, ptr) && ServesOnly(run, a, ptr)
    ensures WasGivenItsUid(run, a, ptr) <==> HasOwnUid(run, a, ptr)
  {
    if HasOwnUid(run, a, ptr) {
      HasOwnUidIff(run, a, ptr);
    } else if WasGivenItsUid(run, a, ptr) {
      var m: nat :| MintsFor(run, m, a, ptr, At(run, a).filter[ptr]);
      GivenLast(run, a, ptr, m);
      HasOwnUidIff(run, a, ptr);
    }
  }
}
