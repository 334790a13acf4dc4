/** Reading a flushed log back: the metadata says how many rows of which size, the file is cut up
    accordingly. */
module LogReader {
  import opened Words
  import opened LogMeta
  import opened LogStore
  import opened Uring

  lemma LastRow(rowSize: nat, n: nat)
    requires n > 0
    ensures (n - 1) * rowSize + rowSize == n * rowSize
  {
  }

  /** The first n rows of a file. */
  function Rows(file: Bytes, rowSize: nat, n: nat): seq<Bytes>
    requires n * rowSize <= |file|
  {
    if n == 0 then []
    else
      LastRow(rowSize, n);
      Rows(file, rowSize, n - 1) + [file[(n - 1) * rowSize..n * rowSize]]
  }

  lemma NotPast(k: nat, n: nat, rowSize: nat)
    requires k <= n
    ensures k * rowSize <= n * rowSize
  {
  }

  /** The reading loop: one bulk read, one row after the other. */
  method MakeTable(file: Bytes, rowSize: nat, n: nat) returns (table: seq<Bytes>)
    requires n * rowSize <= |file|
    ensures table == Rows(file, rowSize, n)
  {
    table := [];
    var at := 0;
    for k := 0 to n
      invariant at == k * rowSize <= |file|
      invariant table == Rows(file, rowSize, k)
    {
      LastRow(rowSize, k + 1);
      NotPast(k + 1, n, rowSize);
      table := table + [file[at..at + rowSize]];
      at := at + rowSize;
    }
  }

  ghost predicate OfSize(records: seq<Bytes>, rowSize: nat) {
    forall record :: record in records ==> |record| == rowSize
  }

  lemma {:induction false} ConcatLength(records: seq<Bytes>, rowSize: nat)
    requires OfSize(records, rowSize)
    ensures |Concat(records)| == |records| * rowSize
    decreases |records|
  {
    if records == [] {
    } else {
      assert records[|records| - 1] in records;
      ConcatLength(records[..|records| - 1], rowSize);
      LastRow(rowSize, |records|);
    }
  }

  lemma {:induction false} RowsOfPrefix(file: Bytes, more: Bytes, rowSize: nat, n: nat)
    requires n * rowSize <= |file|
    ensures n * rowSize <= |file + more|
    ensures Rows(file + more, rowSize, n) == Rows(file, rowSize, n)
  {
    if n == 0 {
    } else {
      LastRow(rowSize, n);
      RowsOfPrefix(file, more, rowSize, n - 1);
      assert (file + more)[(n - 1) * rowSize..n * rowSize] == file[(n - 1) * rowSize..n * rowSize];
    }
  }

  lemma OneMoreRow(file: Bytes, last: Bytes, rowSize: nat, n: nat)
    requires n > 0 && |file| == (n - 1) * rowSize && |last| == rowSize
    ensures n * rowSize == |file + last|
    ensures Rows(file + last, rowSize, n) == Rows(file, rowSize, n - 1) + [last]
  {
    LastRow(rowSize, n);
    RowsOfPrefix(file, last, rowSize, n - 1);
    assert (file + last)[|file|..|file| + rowSize] == last;
  }

  /** Cutting a concatenation of equal-sized records gives the records. */
  lemma {:induction false} RowsAreRecords(records: seq<Bytes>, rowSize: nat)
    requires OfSize(records, rowSize)
    ensures |records| * rowSize == |Concat(records)|
    ensures Rows(Concat(records), rowSize, |records|) == records
    decreases |records|
  {
    ConcatLength(records, rowSize);
    if records == [] {
    } else {
      var n := |records|;
      assert records[n - 1] in records;
      RowsAreRecords(records[..n - 1], rowSize);
      OneMoreRow(Concat(records[..n - 1]), records[n - 1], rowSize, n);
    }
  }

  /** What the collector learns from the metadata of a flushed store lets it recover exactly the
      committed rows of every log. */
  lemma CommittedRowsReadBack(formats: seq<Format>, records: seq<seq<Bytes>>, f: nat)
    requires |records| == |formats| && f < |formats|
    requires forall i :: 0 <= i < |formats| ==>
               Clean(formats[i]) && OneLine(formats[i]) && Sized(formats[i]) && |records[i]| <= INT_MAX
    requires TotalSize(formats[f].fields) >= 0 && OfSize(records[f], TotalSize(formats[f].fields))
    ensures var parsed := ReadBack(MetaText(formats, Lengths(records)));
            && |parsed| == |formats| && parsed[f].Parsed? && parsed[f].format == formats[f]
            && parsed[f].rowSize >= 0 && parsed[f].count >= 0
            && parsed[f].count * parsed[f].rowSize <= |Concat(records[f])|
            && Rows(Concat(records[f]), parsed[f].rowSize, parsed[f].count) == records[f]
  {
    MetaRoundTrip(formats, Lengths(records));
    assert ReadBack(MetaText(formats, Lengths(records)))[f]
        == Parsed(formats[f], TotalSize(formats[f].fields), |records[f]|);
    RowsAreRecords(records[f], TotalSize(formats[f].fields));
  }
}
