/** The asynchronous log store: records are written at precomputed offsets, completions are reaped
    whenever there are any, and the final flush waits for a draining sync. */
module LogStore {
  import opened LogMeta
  import opened Uring

  function Concat(records: seq<Bytes>): Bytes {
    if records == [] then "" else Concat(records[..|records| - 1]) + records[|records| - 1]
  }

  function Texts(records: seq<seq<Bytes>>): seq<Bytes> {
    seq(|records|, f requires 0 <= f < |records| => Concat(records[f]))
  }

  lemma AppendRecord(records: seq<seq<Bytes>>, f: nat, record: Bytes)
    requires f < |records|
    ensures Texts(records[f := records[f] + [record]]) == Texts(records)[f := Texts(records)[f] + record]
  {
    assert (records[f] + [record])[..|records[f]|] == records[f];
  }

  /** Before the flush only writes are under way. */
  ghost predicate OnlyWrites(m: Machine) {
    && (forall i :: 0 <= i < |m.pending| ==> m.pending[i].Write?)
    && 0 !in m.cq && MARKER !in m.cq
  }

  /** While the per-file syncs are submitted, the final one is not there yet. */
  ghost predicate NoFinal(m: Machine) {
    (forall i :: 0 <= i < |m.pending| ==> !m.pending[i].Final?) && MARKER !in m.cq
  }

  /** During the flush the final sync is the last thing pending, or the last thing completed. */
  ghost predicate Draining(m: Machine) {
    if m.pending != [] then
      && m.pending[|m.pending| - 1].Final?
      && (forall i :: 0 <= i < |m.pending| - 1 ==> !m.pending[i].Final?)
      && MARKER !in m.cq
    else
      && m.cq != [] && m.cq[|m.cq| - 1] == MARKER
      && MARKER !in m.cq[..|m.cq| - 1]
  }

  ghost predicate StoreAgrees(m: Machine, texts: seq<Bytes>) {
    DiskAgrees(m, texts) && BuffersAgree(m)
  }

  lemma ExecuteKeepsPhase(m: Machine, i: nat)
    requires BuffersAgree(m) && CanRun(m.pending, i)
    requires m.pending[i].Write? ==> m.pending[i].file < |m.files|
    ensures OnlyWrites(m) ==> OnlyWrites(Execute(m, i))
    ensures Draining(m) ==> Draining(Execute(m, i))
    ensures NoFinal(m) ==> NoFinal(Execute(m, i))
  {
    if m.pending[i].Write? {
      WriteIsLive(m, i);
    }
    var after := Execute(m, i);
    assert forall j :: 0 <= j < |after.pending| ==> after.pending[j] == m.pending[if j < i then j else j + 1];
    assert after.cq[..|after.cq| - 1] == m.cq;
  }

  lemma ExecuteKeeps(m: Machine, texts: seq<Bytes>, i: nat)
    requires StoreAgrees(m, texts) && CanRun(m.pending, i)
    ensures m.pending[i].Write? ==> m.pending[i].file < |m.files|
    ensures StoreAgrees(Execute(m, i), texts)
    ensures OnlyWrites(m) ==> OnlyWrites(Execute(m, i))
    ensures Draining(m) ==> Draining(Execute(m, i))
    ensures NoFinal(m) ==> NoFinal(Execute(m, i))
  {
    ExecuteKeepsDisk(m, texts, i);
    ExecuteKeepsBuffers(m, i);
    ExecuteKeepsPhase(m, i);
  }

  predicate Free(p: nat, live: set<nat>) {
    p > MARKER && p !in live
  }

  lemma AppendKeeps(m: Machine, texts: seq<Bytes>, f: nat, buf: nat, bytes: Bytes)
    requires StoreAgrees(m, texts) && f < |texts| && Free(buf, m.live)
    ensures var after := Submitted(m, f, buf, bytes, |texts[f]|);
            && StoreAgrees(after, texts[f := texts[f] + bytes])
            && |after.live| == |m.live| + 1
            && (OnlyWrites(m) ==> OnlyWrites(after))
            && (NoFinal(m) ==> NoFinal(after))
  {
    AppendKeepsDisk(m, texts, f, buf, bytes);
    AppendKeepsBuffers(m, f, buf, bytes, |texts[f]|);
  }

  /** Before the flush every completion frees a buffer. */
  lemma ReapKeepsWrites(m: Machine, texts: seq<Bytes>)
    requires StoreAgrees(m, texts) && OnlyWrites(m) && m.cq != []
    ensures m.cq[0] != 0 && m.cq[0] in m.live
    ensures StoreAgrees(Reaped(m), texts) && OnlyWrites(Reaped(m)) && |Reaped(m).live| == |m.live| - 1
  {
    assert m.cq[0] in m.cq;
    ReapKeeps(m, texts);
  }

  /** An address the allocator may hand out. */
  lemma {:induction false} FreshAddress(taken: set<nat>, above: nat) returns (p: nat)
    ensures p > above && p !in taken
  {
    if x :| x in taken && x > above {
      p := FreshAddress(taken - {x}, x);
    } else {
      p := above + 1;
    }
  }

  /** The kernel's side, which runs whenever it likes. */
  class Ring {
    var m: Machine

    constructor (files: nat)
      ensures m == Machine(seq(files, _ => map[]), [], [], {})
    {
      m := Machine(seq(files, _ => map[]), [], [], {});
    }

    /** One operation completes, any one that may. */
    method Complete(ghost texts: seq<Bytes>)
      requires StoreAgrees(m, texts) && m.pending != []
      modifies this
      ensures StoreAgrees(m, texts) && m.live == old(m.live)
      ensures old(OnlyWrites(m)) ==> OnlyWrites(m)
      ensures old(NoFinal(m)) ==> NoFinal(m)
      ensures old(Draining(m)) ==> Draining(m)
      ensures |m.pending| == |old(m.pending)| - 1 && |m.cq| == |old(m.cq)| + 1
    {
      assert CanRun(m.pending, 0);
      var i :| 0 <= i < |m.pending| && CanRun(m.pending, i);
      ExecuteKeeps(m, texts, i);
      m := Execute(m, i);
    }

    /** Any number of operations complete, in any order. */
    method Progress(ghost texts: seq<Bytes>)
      requires StoreAgrees(m, texts)
      modifies this
      ensures StoreAgrees(m, texts) && m.live == old(m.live)
      ensures old(OnlyWrites(m)) ==> OnlyWrites(m)
      ensures old(NoFinal(m)) ==> NoFinal(m)
      ensures old(Draining(m)) ==> Draining(m)
      ensures 2 * |m.pending| + |m.cq| <= 2 * |old(m.pending)| + |old(m.cq)|
    {
      var steps: nat := *;
      while steps > 0 && m.pending != []
        invariant StoreAgrees(m, texts) && m.live == old(m.live)
        invariant old(OnlyWrites(m)) ==> OnlyWrites(m)
        invariant old(NoFinal(m)) ==> NoFinal(m)
        invariant old(Draining(m)) ==> Draining(m)
        invariant 2 * |m.pending| + |m.cq| <= 2 * |old(m.pending)| + |old(m.cq)|
        decreases |m.pending|
      {
        Complete(texts);
        steps := steps - 1;
      }
    }

    method SubmitSync(op: Op, ghost texts: seq<Bytes>)
      requires StoreAgrees(m, texts) && NoFinal(m) && !op.Write?
      modifies this
      ensures StoreAgrees(m, texts) && m.live == old(m.live)
      ensures if op.Final? then Draining(m) else NoFinal(m)
    {
      SyncKeeps(m, texts, op);
      m := m.(pending := m.pending + [op]);
    }

    /** Allocates a send buffer and submits the write of it. */
    method SubmitWrite(file: nat, bytes: Bytes, offset: nat, ghost texts: seq<Bytes>) returns (buf: nat)
      requires StoreAgrees(m, texts) && file < |texts| && offset == |texts[file]|
      modifies this
      ensures StoreAgrees(m, texts[file := texts[file] + bytes])
      ensures m == Submitted(old(m), file, buf, bytes, offset) && |m.live| == |old(m.live)| + 1
      ensures old(OnlyWrites(m)) ==> OnlyWrites(m)
      ensures old(NoFinal(m)) ==> NoFinal(m)
    {
      ghost var p := FreshAddress(m.live, MARKER);
      assert Free(p, m.live);
      buf :| Free(buf, m.live);
      assert Free(buf, m.live);
      AppendKeeps(m, texts, file, buf, bytes);
      m := Submitted(m, file, buf, bytes, offset);
    }
  }

  function Lengths(records: seq<seq<Bytes>>): seq<nat> {
    seq(|records|, f requires 0 <= f < |records| => |records[f]|)
  }

  function TextLengths(texts: seq<Bytes>): seq<nat> {
    seq(|texts|, f requires 0 <= f < |texts| => |texts[f]|)
  }

  lemma TextsOf(records: seq<seq<Bytes>>, extra: Bytes, f: nat, record: Bytes)
    requires f < |records|
    ensures var more := records[f := records[f] + [record]];
            && Texts(more) + [extra] == (Texts(records) + [extra])[f := Texts(records)[f] + record]
            && TextLengths(Texts(more)) == TextLengths(Texts(records))[f := |Texts(records)[f]| + |record|]
            && Lengths(more) == Lengths(records)[f := |records[f]| + 1]
  {
    AppendRecord(records, f, record);
  }

  lemma OneMoreLine(lines: seq<string>, i: nat)
    requires i < |lines|
    ensures Terminated(lines[..i + 1], '\n') == Terminated(lines[..i], '\n') + lines[i] + "\n"
  {
    assert lines[..i + 1][..i] == lines[..i];
  }

  /** What the files are meant to hold in the end. */
  function WithMeta(records: seq<seq<Bytes>>, meta: Bytes): seq<Bytes> {
    Texts(records) + [meta]
  }

  lemma MetaIsLast(records: seq<seq<Bytes>>, meta: Bytes)
    ensures var texts := WithMeta(records, "");
            && |texts| == |records| + 1 && |texts[|records|]| == 0
            && texts[|records| := texts[|records|] + meta] == WithMeta(records, meta)
  {
    assert "" + meta == meta;
  }

  /** Offsets and counts are those of the committed records; the last file is the metadata's. */
  ghost predicate Coherent(records: seq<seq<Bytes>>, n: nat, offsets: seq<nat>, counts: seq<nat>, m: Machine) {
    && |records| == n
    && offsets == TextLengths(Texts(records))
    && counts == Lengths(records)
    && StoreAgrees(m, WithMeta(records, ""))
  }

  lemma CommitKeeps(records: seq<seq<Bytes>>, n: nat, offsets: seq<nat>, counts: seq<nat>, f: nat, record: Bytes,
                    m: Machine, m': Machine)
    requires Coherent(records, n, offsets, counts, m) && f < n
    requires var texts := WithMeta(records, ""); StoreAgrees(m', texts[f := texts[f] + record])
    ensures Coherent(records[f := records[f] + [record]], n, offsets[f := offsets[f] + |record|],
              counts[f := counts[f] + 1], m')
  {
    TextsOf(records, "", f, record);
  }

  /** Every name stands for the last of the first n logs that carry it. */
  ghost predicate IndexOfNames(formats: seq<Format>, n: nat, index: map<string, nat>)
    requires n <= |formats|
  {
    && (forall i :: 0 <= i < n ==> formats[i].name in index && i <= index[formats[i].name])
    && (forall name :: name in index ==> index[name] < n && formats[index[name]].name == name)
  }

  lemma FirstOfMany(s: seq<nat>, x: nat)
    requires |s| > 1 && x !in s[..|s| - 1]
    ensures s[0] != x && x !in s[1..][..|s| - 2]
  {
    var front := s[..|s| - 1];
    assert s[0] == front[0] && s[1..][..|s| - 2] == front[1..];
  }

  lemma MarkerIsLast(m: Machine, texts: seq<Bytes>)
    requires StoreAgrees(m, texts) && Draining(m) && m.cq != [] && m.cq[0] == MARKER
    ensures m.pending == [] && m.cq == [MARKER] && m.live == {}
  {
    assert m.cq[0] in m.cq;
    if |m.cq| > 1 {
      FirstOfMany(m.cq, MARKER);
    }
    assert m.cq == [] + [MARKER];
    ReportedMore([], MARKER);
    forall b
      ensures b !in m.live
    {
      assert b in m.live <==> b in multiset(m.live);
    }
  }

  lemma ReapKeepsDraining(m: Machine)
    requires Draining(m) && m.cq != [] && m.cq[0] != MARKER
    ensures Draining(Reaped(m))
  {
    if m.pending == [] {
      FirstOfMany(m.cq, MARKER);
    }
  }

  lemma AllComplete(m: Machine, texts: seq<Bytes>)
    requires StoreAgrees(m, texts) && m.pending == []
    ensures |m.files| == |texts| && forall f :: 0 <= f < |texts| ==> Holds(m.files[f], texts[f])
  {
    forall f | 0 <= f < |texts|
      ensures Holds(m.files[f], texts[f])
    {
      QuiescentIsComplete(m, texts, f);
    }
  }

  lemma FlushedFiles(records: seq<seq<Bytes>>, meta: Bytes, m: Machine)
    requires StoreAgrees(m, WithMeta(records, meta)) && m.pending == []
    ensures |m.files| == |records| + 1 && Holds(m.files[|records|], meta)
    ensures forall f :: 0 <= f < |records| ==> Holds(m.files[f], Concat(records[f]))
  {
    var texts := WithMeta(records, meta);
    AllComplete(m, texts);
    assert texts[|records|] == meta;
    forall f | 0 <= f < |records|
      ensures Holds(m.files[f], Concat(records[f]))
    {
      assert texts[f] == Concat(records[f]);
    }
  }

  class Logger {
    const formats: seq<Format>
    const ring: Ring
    var fdMap: map<string, nat>
    var offSetOf: seq<nat>
    var fileCommitCount: seq<nat>
    var processed: nat
    ghost var records: seq<seq<Bytes>>   // what was committed to each log

    ghost function Committed(): seq<Bytes>
      reads this
    {
      WithMeta(records, "")
    }

    /** The book-keeping is that of the committed records, and the disk will catch up with it. */
    ghost predicate Valid()
      reads this, ring
    {
      && Coherent(records, |formats|, offSetOf, fileCommitCount, ring.m)
      && OnlyWrites(ring.m)
      && forall name :: name in fdMap ==> fdMap[name] < |formats|
    }

    /** A later log of the same name hides an earlier one. The last file will hold the metadata. */
    constructor (formats: seq<Format>)
      ensures Valid() && this.formats == formats && fresh(ring)
      ensures records == seq(|formats|, _ => []) && processed == 0
      ensures IndexOfNames(formats, |formats|, fdMap)
    {
      this.formats := formats;
      ring := new Ring(|formats| + 1);
      offSetOf, fileCommitCount := seq(|formats|, _ => 0), seq(|formats|, _ => 0);
      processed := 0;
      records := seq(|formats|, _ => []);
      fdMap := map[];
      new;
      for i := 0 to |formats|
        invariant IndexOfNames(formats, i, fdMap)
        invariant records == seq(|formats|, _ => []) && processed == 0
        invariant ring.m == Machine(seq(|formats| + 1, _ => map[]), [], [], {})
        invariant offSetOf == fileCommitCount == seq(|formats|, _ => 0)
      {
        fdMap := fdMap[formats[i].name := i];
      }
    }

    /** Frees the send buffer of every completion there is. */
    method Drain(ghost texts: seq<Bytes>)
      requires StoreAgrees(ring.m, texts) && OnlyWrites(ring.m)
      modifies ring, `processed
      ensures StoreAgrees(ring.m, texts) && OnlyWrites(ring.m)
      ensures processed + |ring.m.live| == old(processed + |ring.m.live|)
    {
      ring.Progress(texts);
      while ring.m.cq != []
        invariant StoreAgrees(ring.m, texts) && OnlyWrites(ring.m)
        invariant processed + |ring.m.live| == old(processed + |ring.m.live|)
        decreases 2 * |ring.m.pending| + |ring.m.cq|
      {
        var buf := ring.m.cq[0];
        ReapKeepsWrites(ring.m, texts);
        if buf != 0 {
          processed := processed + 1;
          ring.m := Reaped(ring.m);
        }
        ring.Progress(texts);
      }
    }

    /** Submits the record at the end of its log; its write may run at any later time. */
    method Enqueue(index: nat, record: Bytes)
      requires Valid() && index < |formats|
      modifies `fileCommitCount, `offSetOf, `records, ring
      ensures Valid() && records == old(records)[index := old(records)[index] + [record]]
      ensures |ring.m.live| == old(|ring.m.live|) + 1
    {
      ghost var before := ring.m;
      var _ := ring.SubmitWrite(index, record, offSetOf[index], Committed());
      CommitKeeps(records, |formats|, offSetOf, fileCommitCount, index, record, before, ring.m);
      fileCommitCount := fileCommitCount[index := fileCommitCount[index] + 1];
      offSetOf := offSetOf[index := offSetOf[index] + |record|];
      records := records[index := records[index] + [record]];
    }

    /** An unknown name silently means the first log. */
    method Commit(name: string, record: Bytes)
      requires Valid() && |formats| > 0
      modifies this, ring
      ensures Valid()
      ensures var f := if name in old(fdMap) then old(fdMap)[name] else 0;
              records == old(records)[f := old(records)[f] + [record]]
      ensures fdMap == if name in old(fdMap) then old(fdMap) else old(fdMap)[name := 0]
      ensures processed + |ring.m.live| == old(processed + |ring.m.live|) + 1
    {
      if name !in fdMap {
        fdMap := fdMap[name := 0];
      }
      var index := fdMap[name];
      Enqueue(index, record);
      Drain(Committed());
    }

    /** Syncs every log and puts the metadata together. */
    method SyncAll() returns (logData: Bytes)
      requires Valid()
      modifies ring
      ensures StoreAgrees(ring.m, Committed()) && NoFinal(ring.m) && ring.m.live == old(ring.m.live)
      ensures |fileCommitCount| == |formats| && logData == MetaText(formats, fileCommitCount)
    {
      logData := "";
      ghost var lines := PrintedLines(formats, fileCommitCount);
      ghost var texts := Committed();
      for i := 0 to |formats|
        invariant logData == Terminated(lines[..i], '\n')
        invariant StoreAgrees(ring.m, texts) && NoFinal(ring.m) && ring.m.live == old(ring.m.live)
      {
        OneMoreLine(lines, i);
        logData := logData + Line(formats[i], fileCommitCount[i]) + "\n";
        ring.SubmitSync(Sync(i), texts);
        ring.Progress(texts);
      }
      assert lines[..|lines|] == lines;
    }

    /** Reaps until the final sync is seen, freeing the buffer of every completed write on the way. */
    method AwaitFinal(ghost texts: seq<Bytes>)
      requires StoreAgrees(ring.m, texts) && Draining(ring.m)
      modifies ring, `processed
      ensures StoreAgrees(ring.m, texts) && ring.m.pending == [] && ring.m.live == {}
      ensures processed == old(processed + |ring.m.live|)
    {
      while true
        invariant StoreAgrees(ring.m, texts) && Draining(ring.m)
        invariant processed + |ring.m.live| == old(processed + |ring.m.live|)
        decreases 2 * |ring.m.pending| + |ring.m.cq|
      {
        if ring.m.cq == [] {
          ring.Complete(texts);
        } else {
          ReapKeeps(ring.m, texts);
          var data := ring.m.cq[0];
          if data == MARKER {
            MarkerIsLast(ring.m, texts);
            ring.m := Reaped(ring.m);
            return;
          }
          ReapKeepsDraining(ring.m);
          if data != 0 {
            processed := processed + 1;
          }
          ring.m := Reaped(ring.m);
        }
      }
    }

    /** Submits the metadata, and a sync that waits for everything before it. */
    method SubmitMeta(logData: Bytes)
      requires StoreAgrees(ring.m, Committed()) && NoFinal(ring.m) && |records| == |formats|
      modifies ring
      ensures StoreAgrees(ring.m, WithMeta(records, logData)) && Draining(ring.m)
      ensures |ring.m.live| == old(|ring.m.live|) + 1
    {
      ghost var texts := WithMeta(records, "");
      MetaIsLast(records, logData);
      var _ := ring.SubmitWrite(|formats|, logData, 0, texts);
      ring.SubmitSync(Final, WithMeta(records, logData));
    }

    /** Once the flush returns, every log holds exactly its records in commit order, the metadata file
        describes them, nothing is pending and every send buffer has been freed. */
    method FlushAll()
      requires Valid()
      modifies this, ring
      ensures |fileCommitCount| == |formats| == |records| && |ring.m.files| == |formats| + 1
      ensures records == old(records) && fileCommitCount == Lengths(records)
      ensures forall f :: 0 <= f < |formats| ==> Holds(ring.m.files[f], Concat(records[f]))
      ensures Holds(ring.m.files[|formats|], MetaText(formats, fileCommitCount))
      ensures ring.m.pending == [] && ring.m.live == {}
      ensures processed == old(processed + |ring.m.live|) + 1
    {
      var logData := SyncAll();
      ghost var texts := WithMeta(records, logData);
      SubmitMeta(logData);
      ring.Progress(texts);
      AwaitFinal(texts);
      FlushedFiles(records, logData, ring.m);
    }
  }
}
