/** Runs in which the analysis joins a dio with a request of another one. */
module DioMisjoins {
  import opened DioProbes
  import opened DioJoin
  import opened HashJoin

  // --- A missed lookup ---------------------------------------------------------------------------

  /** Two dios; the second was never given a uid, and its record happens to hold the first one's. */
  function Misjoined(): seq<Step> {
    [Step(1, true, DioIter(true, 10, 0, true)),
     Step(2, true, BioActor(100, 10)),
     Step(3, true, RqTrack(1000, 100)),
     Step(4, true, DioIter(true, 20, 0, true)),
     Step(5, true, Kfree(200, 20, 0, true, 2)),
     Step(6, true, Account(1000, 6, 0, 0, 0, 0, true))]
  }

  const FIRST_DIO: SimpleDio := SimpleDio(0, 1, 2, 0, 0, 0, true)
  const SECOND_DIO: SimpleDio := SimpleDio(0, 4, 0, 0, 0, 0, true)

  lemma MisjoinedCache()
    ensures At(Misjoined(), 3) == State(0, 0, map[10 := FIRST_DIO], map[100 := 2], map[1000 := Tagged(1000, 2, 3)], [])
  {
    var run := Misjoined();
    assert At(run, 1) == State(0, 0, map[10 := FIRST_DIO.(startBlockIo := 0)], map[], map[], []);
    assert At(run, 2) == State(0, 0, map[10 := FIRST_DIO], map[100 := 2], map[], []);
  }

  lemma MisjoinedBuffer()
    ensures At(Misjoined(), 4) == State(0, 0, map[10 := FIRST_DIO, 20 := SECOND_DIO], map[100 := 2],
              map[1000 := Tagged(1000, 2, 3)], [])
    ensures At(Misjoined(), 5).log == [DioRecord(2, SECOND_DIO.(endBlockIo := 5))]
    ensures At(Misjoined(), 5).rqs == map[1000 := Tagged(1000, 2, 3)]
  {
    MisjoinedCache();
    var s := At(Misjoined(), 3);
    assert |s.events| == 1;
  }

  lemma MisjoinedLog()
    ensures EmitsRq(Misjoined(), 5)
    ensures At(Misjoined(), 6).log == [DioRecord(2, SECOND_DIO.(endBlockIo := 5)), RqRecord(RqEmitted(Misjoined(), 5))]
  {
    MisjoinedBuffer();
  }

  lemma RowsOfTwo(d: Record, r: Record)
    requires d.DioRecord? && r.RqRecord?
    ensures DioRows([d, r]) == [d] && RqRows([d, r]) == [r]
  {
    assert [d][..0] == [];
    assert DioRows([d]) == [d] && RqRows([d]) == [];
    assert [d, r][..1] == [d];
  }

  lemma MisjoinedPair()
    ensures var log := At(Misjoined(), 6).log;
            (0, 0) in NestedLoop(Uids(DioRows(log)), Uids(RqRows(log)))
  {
    MisjoinedBuffer();
    MisjoinedLog();
    var log := At(Misjoined(), 6).log;
    assert RqEmitted(Misjoined(), 5).dioUid == 2;
    RowsOfTwo(log[0], log[1]);
    NestedLoopComplete(Uids(DioRows(log)), Uids(RqRows(log)), 0, 0);
  }

  lemma NeverMinted()
    ensures !BelongsTo(Misjoined(), 4, RqInfo(2, 1000, 3, 0, 0, 0, 0, 6, 0, 0, 0, 0, NoDrive), 200)
  {
  }

  /** Without a successful lookup the join can pair a request with a dio it does not belong to. */
  lemma MissedLookupMisjoins()
    ensures var run := Misjoined();
            && Ticks(run) && EmitsDio(run, 4, 200) && !Hit(run, 4)
            && EmitsRq(run, 5) && RqEmitted(run, 5).dioUid == 2
            && (0, 0) in NestedLoop(Uids(DioRows(At(run, 6).log)), Uids(RqRows(At(run, 6).log)))
            && !BelongsTo(run, 4, RqEmitted(run, 5), 200)
  {
    MisjoinedBuffer();
    MisjoinedLog();
    MisjoinedPair();
    NeverMinted();
  }

  // --- A reused address --------------------------------------------------------------------------

  /** The first dio is freed without a record, which leaves its uid behind; the second one gets its
      address, but no uid of its own. */
  function Reused(): seq<Step> {
    [Step(1, true, DioIter(true, 10, 0, true)),
     Step(2, true, BioActor(100, 10)),
     Step(3, true, RqTrack(1000, 100)),
     Step(4, true, Kfree(100, 10, 0, false, 0)),
     Step(5, true, DioIter(true, 20, 0, true)),
     Step(6, true, Kfree(100, 20, 0, true, 0)),
     Step(7, true, Account(1000, 7, 0, 0, 0, 0, true))]
  }

  const SECOND_TENANT: SimpleDio := SimpleDio(0, 5, 0, 0, 0, 0, true)

  lemma ReusedCache()
    ensures At(Reused(), 3) == State(0, 0, map[10 := FIRST_DIO], map[100 := 2], map[1000 := Tagged(1000, 2, 3)], [])
  {
    var run := Reused();
    assert At(run, 1) == State(0, 0, map[10 := FIRST_DIO.(startBlockIo := 0)], map[], map[], []);
    assert At(run, 2) == State(0, 0, map[10 := FIRST_DIO], map[100 := 2], map[], []);
  }

  lemma ReusedAddress()
    ensures At(Reused(), 5) == State(0, 0, map[20 := SECOND_TENANT], map[100 := 2], map[1000 := Tagged(1000, 2, 3)], [])
  {
    ReusedCache();
    assert At(Reused(), 4) == State(0, 0, map[], map[100 := 2], map[1000 := Tagged(1000, 2, 3)], []);
  }

  lemma ReusedRow()
    ensures At(Reused(), 6).log == [DioRecord(2, SECOND_TENANT.(endBlockIo := 6))]
    ensures At(Reused(), 6).rqs == map[1000 := Tagged(1000, 2, 3)]
    ensures EmitsDio(Reused(), 5, 100) && Hit(Reused(), 5) && !HasOwnUid(Reused(), 5, 100)
  {
    ReusedAddress();
  }

  lemma ReusedLog()
    ensures EmitsRq(Reused(), 6) && RqEmitted(Reused(), 6).dioUid == 2
    ensures At(Reused(), 7).log == [DioRecord(2, SECOND_TENANT.(endBlockIo := 6)), RqRecord(RqEmitted(Reused(), 6))]
  {
    ReusedRow();
  }

  lemma ReusedPair()
    ensures var log := At(Reused(), 7).log;
            (0, 0) in NestedLoop(Uids(DioRows(log)), Uids(RqRows(log)))
  {
    ReusedLog();
    var log := At(Reused(), 7).log;
    RowsOfTwo(log[0], log[1]);
    NestedLoopComplete(Uids(DioRows(log)), Uids(RqRows(log)), 0, 0);
  }

  lemma NeverGiven(info: RqInfo)
    ensures !BelongsTo(Reused(), 5, info, 100)
  {
  }

  lemma ReusedClock()
    ensures Clock(Reused())
  {
  }

  /** Even with a successful lookup the join can pair a request with a dio it does not belong to. */
  lemma ReusedAddressMisjoins()
    ensures var run := Reused();
            && Clock(run) && EmitsDio(run, 5, 100) && Hit(run, 5) && !HasOwnUid(run, 5, 100)
            && EmitsRq(run, 6) && RqEmitted(run, 6).dioUid == 2
            && (0, 0) in NestedLoop(Uids(DioRows(At(run, 7).log)), Uids(RqRows(At(run, 7).log)))
            && !BelongsTo(run, 5, RqEmitted(run, 6), 100)
  {
    ReusedClock();
    ReusedRow();
    ReusedLog();
    ReusedPair();
    NeverGiven(RqEmitted(Reused(), 6));
  }
}
