/** The offline analysis of block rows: stage columns, their sums, end times in order, and the average
    latency per window of end times. */
module Analysis {
  import opened Sorting
  import opened Words
  import opened Stages
  import opened TimeWindows

  ghost predicate Cells(rows: seq<seq<nat>>) {
    forall k :: 0 <= k < |rows| ==> |rows[k]| == 11
  }

  /** When every row ended, next to its index. */
  function Ends(rows: seq<seq<nat>>): seq<(nat, nat)>
    requires Cells(rows)
  {
    seq(|rows|, k requires 0 <= k < |rows| => (EndTime(rows[k]), k))
  }

  function ByTime(p: (nat, nat)): int {
    p.0
  }

  /** The eight latencies of a row, cell by cell, and then their wrapped sum. */
  ghost predicate HoldsRow(latency: array2<nat>, k: nat, row: seq<nat>)
    requires latency.Length0 == 9 && k < latency.Length1 && |row| == 11
    reads latency
  {
    && latency[0, k] == row[1]   // alloc_request
    && latency[1, k] == row[3]   // plug
    && latency[2, k] == row[4]   // scheduling
    && latency[3, k] == row[5]   // dispatch
    && latency[4, k] == row[6]   // nvme_exec
    && latency[5, k] == row[7]   // scsi_exec
    && latency[6, k] == row[8]   // nvme_verify
    && latency[7, k] == row[9]   // scsi_verify
    && latency[8, k] == (row[1] + row[3] + row[4] + row[5] + row[6] + row[7] + row[8] + row[9]) % WORD
  }

  method FillColumn(latency: array2<nat>, row: seq<nat>, k: nat)
    requires latency.Length0 == 9 && k < latency.Length1 && |row| == 11
    modifies latency
    ensures HoldsRow(latency, k, row) && latency[8, k] == LatencySum(row)
    ensures forall i, j :: 0 <= i < 9 && 0 <= j < latency.Length1 && j != k ==> latency[i, j] == old(latency[i, j])
  {
    latency[0, k], latency[1, k], latency[2, k], latency[3, k] := row[1], row[3], row[4], row[5];
    latency[4, k], latency[5, k], latency[6, k], latency[7, k] := row[6], row[7], row[8], row[9];
    latency[8, k] := 0;
    ghost var cells := Latencies(row);
    assert forall i :: 0 <= i < 8 ==> latency[i, k] == cells[i];
    for i := 0 to 8
      invariant forall c :: 0 <= c < 8 ==> latency[c, k] == cells[c]
      invariant forall c, j :: 0 <= c < 9 && 0 <= j < latency.Length1 && j != k ==> latency[c, j] == old(latency[c, j])
      invariant latency[8, k] == AddUp(cells[..i])
    {
      assert cells[..i + 1][..i] == cells[..i];
      latency[8, k] := Add(latency[8, k], latency[i, k]);
    }
    assert cells[..8] == cells;
    SumsOfRow(row);
    assert forall i :: 0 <= i < 8 ==> latency[i, k] == cells[i];
  }

  /** When a row ended: its entry plus its latencies, wrapped. */
  lemma EndsAre(rows: seq<seq<nat>>, k: nat)
    requires Cells(rows) && k < |rows|
    ensures var row := rows[k];
            var sum := row[1] + row[3] + row[4] + row[5] + row[6] + row[7] + row[8] + row[9];
            Ends(rows)[k] == ((row[0] + sum) % WORD, k)
  {
    SumsOfRow(rows[k]);
  }

  method StageColumns(rows: seq<seq<nat>>) returns (latency: array2<nat>, blkEnd: seq<(nat, nat)>)
    requires Cells(rows)
    ensures fresh(latency) && latency.Length0 == 9 && latency.Length1 == |rows|
    ensures forall k :: 0 <= k < |rows| ==> HoldsRow(latency, k, rows[k])
    ensures multiset(blkEnd) == multiset(Ends(rows)) && SortedBy(blkEnd, ByTime)
  {
    latency := new nat[9, |rows|];
    blkEnd := [];
    for k := 0 to |rows|
      invariant forall j :: 0 <= j < k ==> HoldsRow(latency, j, rows[j])
      invariant blkEnd == Ends(rows)[..k]
    {
      var row := rows[k];
      FillColumn(latency, row, k);
      blkEnd := blkEnd + [(Add(row[0], latency[8, k]), k)];
    }
    assert Ends(rows)[..|rows|] == Ends(rows);
    blkEnd := SortBy(blkEnd, ByTime);
  }

  /** The window table of a column, fed in the order of end times, holds for every window the sum and
      the number of the rows whose own end time falls into it: the window that has elapsed since the
      first end, as long as an int can count it. */
  lemma WindowsHoldTheirRows(rows: seq<seq<nat>>, blkEnd: seq<(nat, nat)>, latency: seq<nat>,
                             interval: nat, table: seq<(nat, nat)>, w: nat)
    requires Cells(rows) && rows != [] && |latency| == |rows| && interval > 0
    requires multiset(blkEnd) == multiset(Ends(rows)) && SortedBy(blkEnd, ByTime)
    requires blkEnd != [] && Tallies(table, Valued(blkEnd, Lookup(latency)), blkEnd[0].0, interval)
    requires w < |table|
    ensures var items := Valued(Ends(rows), Lookup(latency));
            table[w] == (SumAt(items, blkEnd[0].0, interval, w), CountAt(items, blkEnd[0].0, interval, w))
    ensures forall k :: 0 <= k < |rows| ==> Valued(Ends(rows), Lookup(latency))[k] == (EndTime(rows[k]), latency[k])
    ensures forall k :: 0 <= k < |rows| ==>
              var elapsed := (EndTime(rows[k]) - blkEnd[0].0) / interval;
              && blkEnd[0].0 <= EndTime(rows[k])
              && (elapsed <= INT_MAX <==> Window(EndTime(rows[k]), blkEnd[0].0, interval) == elapsed)
  {
    SumsOfRearranged(blkEnd, Ends(rows), Lookup(latency), blkEnd[0].0, interval, w);
    Rearranged(blkEnd, Ends(rows));
    forall k | 0 <= k < |rows|
      ensures var elapsed := (EndTime(rows[k]) - blkEnd[0].0) / interval;
              && blkEnd[0].0 <= EndTime(rows[k])
              && (elapsed <= INT_MAX <==> Window(EndTime(rows[k]), blkEnd[0].0, interval) == elapsed)
    {
      assert Ends(rows)[k] in blkEnd;
      var i :| 0 <= i < |blkEnd| && blkEnd[i] == Ends(rows)[k];
      assert ByTime(blkEnd[0]) <= ByTime(blkEnd[i]);
      WindowIsElapsedIff(EndTime(rows[k]), blkEnd[0].0, interval);
    }
  }
}
