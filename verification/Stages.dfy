/** How user space cuts a request's record into stage latencies, in 64-bit unsigned arithmetic, and
    when the stages add up to the request's whole life. */
module Stages {
  import opened Words
  import opened BlockProbes

  function Sub(a: nat, b: nat): nat {
    (a - b) % WORD
  }

  /** The i-th cell of a row. The 16-byte process name fills the last cell. */
  function Stage(t: Trace, i: nat): nat {
    match i
    case 0 => t.bioEnter
    case 1 => Sub(t.rqStart, t.bioEnter)
    case 2 => if t.write then 1 else 0
    case 3 => Sub(t.path, t.plug)
    case 4 => if t.sType.NoSchedu? then 0 else Sub(t.dispatch, t.path)
    case 5 => if t.dType.DirectDispatch? then Sub(t.queueRq, t.path) else Sub(t.queueRq, t.dispatch)
    case 6 => if t.drive.Nvme? then Sub(t.complete, t.queueRq) else 0
    case 7 => if t.drive.Nvme? then 0 else Sub(t.complete, t.queueRq)
    case 8 => if t.drive.Nvme? then Sub(t.accountIo, t.complete) else 0
    case 9 => if t.drive.Nvme? then 0 else Sub(t.accountIo, t.complete)
    case _ => t.common
  }

  /** The cells that do not depend on what the fresh array held. */
  predicate Determined(t: Trace, i: nat) {
    && (i == 3 || i == 4 ==> !t.sType.UnknownSchedu?)
    && (6 <= i <= 9 ==> !t.drive.NoDrive?)
  }

  predicate Kept(t: Trace) {
    t.plug > 0 && !t.dType.UnknownDispatch?
  }

  /** A row whose determined cells are the record's stages. */
  ghost predicate IsRowOf(t: Trace, row: seq<nat>) {
    |row| == 11 && forall i :: 0 <= i < 11 && Determined(t, i) ==> row[i] == Stage(t, i)
  }

  class BlkTraceModule {
    var processed: nat
    var committed: seq<seq<nat>>

    constructor ()
      ensures processed == 0 && committed == []
    {
      processed, committed := 0, [];
    }

    method DoEvent(log: Trace) returns (ret: int, ghost row: seq<nat>)
      modifies this
      ensures processed == old(processed) + 1
      ensures ret == if Kept(log) then 1 else 0
      ensures !Kept(log) ==> committed == old(committed)
      ensures Kept(log) ==>
                committed == old(committed) + [row] && IsRowOf(log, row)
    {
      row := [];
      processed := processed + 1;
      var eventData := new nat[11];
      eventData[0] := log.bioEnter;
      eventData[1] := Sub(log.rqStart, log.bioEnter);
      if log.plug == 0 {
        return 0, row;
      }
      eventData[2] := if log.write then 1 else 0;
      if log.sType.NoSchedu? {
        eventData[3] := Sub(log.path, log.plug);
        eventData[4] := 0;
      } else if !log.sType.UnknownSchedu? {
        eventData[3] := Sub(log.path, log.plug);
        eventData[4] := Sub(log.dispatch, log.path);
      }
      if log.dType.DirectDispatch? {
        eventData[5] := Sub(log.queueRq, log.path);
      } else if log.dType.UnknownDispatch? {
        return 0, row;
      } else {
        eventData[5] := Sub(log.queueRq, log.dispatch);
      }
      if log.drive.Nvme? {
        eventData[6], eventData[7] := Sub(log.complete, log.queueRq), 0;
        eventData[8], eventData[9] := Sub(log.accountIo, log.complete), 0;
      } else if log.drive.Scsi? {
        eventData[6], eventData[7] := 0, Sub(log.complete, log.queueRq);
        eventData[8], eventData[9] := 0, Sub(log.accountIo, log.complete);
      }
      eventData[10] := log.common;
      row := eventData[..];
      committed := committed + [eventData[..]];
      return 1, row;
    }

    /** Records that were never plugged are not processed at all. */
    method Proxy(log: Trace) returns (ghost row: seq<nat>)
      modifies this
      ensures processed == old(processed) + (if log.plug > 0 then 1 else 0)
      ensures !Kept(log) ==> committed == old(committed)
      ensures Kept(log) ==> committed == old(committed) + [row] && IsRowOf(log, row)
    {
      row := [];
      if log.plug > 0 {
        var kept;
        kept, row := DoEvent(log);
      }
    }
  }

  // --- Telescoping -------------------------------------------------------------------------------

  function StageRow(t: Trace): seq<nat> {
    seq(11, i requires 0 <= i < 11 => Stage(t, i))
  }

  function Add(a: nat, b: nat): nat {
    (a + b) % WORD
  }

  /** The eight latencies of a row. */
  function Latencies(row: seq<nat>): seq<nat>
    requires |row| == 11
  {
    [row[1], row[3], row[4], row[5], row[6], row[7], row[8], row[9]]
  }

  function AddUp(cells: seq<nat>): nat {
    if cells == [] then 0 else Add(AddUp(cells[..|cells| - 1]), cells[|cells| - 1])
  }

  function LatencySum(row: seq<nat>): nat
    requires |row| == 11
  {
    AddUp(Latencies(row))
  }

  /** When the analysis says the request ended. */
  function EndTime(row: seq<nat>): nat
    requires |row| == 11
  {
    Add(row[0], LatencySum(row))
  }

  /** Every tag is set to something the decomposition knows. */
  predicate Classified(t: Trace) {
    !t.sType.UnknownSchedu? && !t.dType.UnknownDispatch? && !t.drive.NoDrive?
  }

  predicate InWords(t: Trace) {
    && t.bioEnter < WORD && t.rqStart < WORD && t.plug < WORD && t.path < WORD && t.dispatch < WORD && t.queueRq < WORD
    && t.complete < WORD && t.accountIo < WORD
  }

  /** The insertion and the dispatch tag agree on whether the request was issued directly. */
  predicate TagsAgree(t: Trace) {
    t.sType.NoSchedu? <==> t.dType.DirectDispatch?
  }

  function Sum(xs: seq<int>): int {
    if xs == [] then 0 else Sum(xs[..|xs| - 1]) + xs[|xs| - 1]
  }

  lemma AddMod(a: int, b: int)
    ensures (a % WORD + b % WORD) % WORD == (a + b) % WORD
  {
  }

  /** Adding up wrapped differences is the same as wrapping the sum of the differences. */
  lemma {:induction false} AddUpIsSum(cells: seq<nat>, xs: seq<int>)
    requires |cells| == |xs| && forall i :: 0 <= i < |cells| ==> cells[i] == xs[i] % WORD
    ensures AddUp(cells) == Sum(xs) % WORD
  {
    if cells == [] {
    } else {
      var n := |cells| - 1;
      AddUpIsSum(cells[..n], xs[..n]);
      AddMod(Sum(xs[..n]), xs[n]);
    }
  }

  /** The eight latencies as plain differences. */
  function Differences(t: Trace): seq<int> {
    [t.rqStart - t.bioEnter,
     t.path - t.plug,
     if t.sType.NoSchedu? then 0 else t.dispatch - t.path,
     if t.dType.DirectDispatch? then t.queueRq - t.path else t.queueRq - t.dispatch,
     if t.drive.Nvme? then t.complete - t.queueRq else 0,
     if t.drive.Nvme? then 0 else t.complete - t.queueRq,
     if t.drive.Nvme? then t.accountIo - t.complete else 0,
     if t.drive.Nvme? then 0 else t.accountIo - t.complete]
  }

  lemma SumOfMore(xs: seq<int>, x: int, more: seq<int>)
    requires more == xs + [x]
    ensures Sum(more) == Sum(xs) + x
  {
    assert more[..|xs|] == xs;
  }

  lemma SumOfFour(a: int, b: int, c: int, d: int)
    ensures Sum([a, b, c, d]) == a + b + c + d
  {
    SumOfMore([], a, [a]);
    SumOfMore([a], b, [a, b]);
    SumOfMore([a, b], c, [a, b, c]);
    SumOfMore([a, b, c], d, [a, b, c, d]);
  }

  lemma SumOfEight(a: int, b: int, c: int, d: int, e: int, f: int, g: int, h: int)
    ensures Sum([a, b, c, d, e, f, g, h]) == a + b + c + d + e + f + g + h
  {
    SumOfFour(a, b, c, d);
    SumOfMore([a, b, c, d], e, [a, b, c, d, e]);
    SumOfMore([a, b, c, d, e], f, [a, b, c, d, e, f]);
    SumOfMore([a, b, c, d, e, f], g, [a, b, c, d, e, f, g]);
    SumOfMore([a, b, c, d, e, f, g], h, [a, b, c, d, e, f, g, h]);
  }

  lemma WrapOnce(a: int, b: int)
    ensures (a + b % WORD) % WORD == (a + b) % WORD
  {
  }

  lemma {:induction false} AddUpWraps(cells: seq<nat>)
    ensures AddUp(cells) == Sum(cells) % WORD
  {
    if cells == [] {
    } else {
      AddUpWraps(cells[..|cells| - 1]);
      WrapOnce(cells[|cells| - 1], Sum(cells[..|cells| - 1]));
    }
  }

  /** The latency sum and the end time of any row, from its cells. */
  lemma SumsOfRow(row: seq<nat>)
    requires |row| == 11
    ensures var sum := row[1] + row[3] + row[4] + row[5] + row[6] + row[7] + row[8] + row[9];
            LatencySum(row) == sum % WORD && EndTime(row) == (row[0] + sum) % WORD
  {
    AddUpWraps(Latencies(row));
    SumOfEight(row[1], row[3], row[4], row[5], row[6], row[7], row[8], row[9]);
    WrapOnce(row[0], Sum(Latencies(row)));
  }

  /** What is left over when the two tags disagree. */
  function Gap(t: Trace): int {
    if TagsAgree(t) then 0
    else if t.sType.NoSchedu? then t.path - t.dispatch
    else t.dispatch - t.path
  }

  lemma DifferencesTelescope(t: Trace)
    ensures Sum(Differences(t)) == t.rqStart - t.bioEnter + t.accountIo - t.plug + Gap(t)
  {
    var d := Differences(t);
    SumOfEight(d[0], d[1], d[2], d[3], d[4], d[5], d[6], d[7]);
  }

  lemma LatencySumIs(t: Trace)
    requires Classified(t)
    ensures LatencySum(StageRow(t)) == Sum(Differences(t)) % WORD
  {
    AddUpIsSum(Latencies(StageRow(t)), Differences(t));
  }

  lemma EndTimeIs(t: Trace)
    requires Classified(t)
    ensures EndTime(StageRow(t)) == (t.accountIo - t.plug + t.rqStart + Gap(t)) % WORD
  {
    LatencySumIs(t);
    DifferencesTelescope(t);
    WrapOnce(t.bioEnter, Sum(Differences(t)));
  }

  lemma SmallGap(x: int, g: int)
    requires -WORD < g < WORD
    ensures (x + g) % WORD == x % WORD <==> g == 0
  {
  }

  /** The analysis finds the end of a classified request at its accounting time minus the time from
      allocation to plugging if and only if the two tags agree, or the two words they select are
      equal anyway. */
  lemma TelescopesIff(t: Trace)
    requires Classified(t) && InWords(t)
    ensures EndTime(StageRow(t)) == (t.accountIo - t.plug + t.rqStart) % WORD
            <==> TagsAgree(t) || t.path == t.dispatch
  {
    EndTimeIs(t);
    SmallGap(t.accountIo - t.plug + t.rqStart, Gap(t));
  }

  /** The times of the record follow the request's path. */
  predicate InOrder(t: Trace) {
    && t.bioEnter <= t.rqStart <= t.plug <= t.path
    && (if t.dType.DirectDispatch? then t.path <= t.queueRq else t.path <= t.dispatch <= t.queueRq)
    && t.queueRq <= t.complete <= t.accountIo < WORD
  }

  lemma SubIsExact(a: nat, b: nat)
    requires b <= a < WORD
    ensures Sub(a, b) == a - b
  {
  }

  lemma NoStageWraps(t: Trace)
    requires Classified(t) && TagsAgree(t) && InOrder(t)
    ensures Latencies(StageRow(t)) == Differences(t)
  {
    SubIsExact(t.rqStart, t.bioEnter);
    SubIsExact(t.path, t.plug);
    SubIsExact(t.complete, t.queueRq);
    SubIsExact(t.accountIo, t.complete);
    if t.dType.DirectDispatch? {
      SubIsExact(t.queueRq, t.path);
    } else {
      SubIsExact(t.dispatch, t.path);
      SubIsExact(t.queueRq, t.dispatch);
    }
    var row := StageRow(t);
    assert row[1] == Stage(t, 1) && row[3] == Stage(t, 3) && row[4] == Stage(t, 4) && row[5] == Stage(t, 5);
    assert row[6] == Stage(t, 6) && row[7] == Stage(t, 7) && row[8] == Stage(t, 8) && row[9] == Stage(t, 9);
  }

  /** Then no difference wraps, nor does their sum: the entry time plus the eight latencies is the
      accounting time minus the time from allocation to plugging. */
  lemma StagesTelescope(t: Trace)
    requires Classified(t) && TagsAgree(t) && InOrder(t)
    ensures Latencies(StageRow(t)) == Differences(t)
    ensures t.bioEnter + Sum(Differences(t)) == t.accountIo - (t.plug - t.rqStart)
    ensures LatencySum(StageRow(t)) == Sum(Differences(t))
    ensures EndTime(StageRow(t)) == t.accountIo - (t.plug - t.rqStart)
  {
    NoStageWraps(t);
    DifferencesTelescope(t);
    EndTimeIs(t);
    LatencySumIs(t);
  }
}
