/** The kernel side of the log store: submitted operations that complete in any order, the completion
    queue, the files, and the send buffers that are still allocated. Bytes are characters. */
module Uring {
  import opened Sorting

  const MARKER: nat := 0x7FFF   // the user data of the final, draining sync

  type Bytes = string

  /** A write of a whole buffer at an offset; a sync of one file, whose user data is 0; the final sync
      that waits for everything submitted before it. */
  datatype Op = Write(file: nat, buf: nat, bytes: Bytes, offset: nat) | Sync(file: nat) | Final

  /** `files` maps the positions written so far to what they hold. */
  datatype Machine = Machine(files: seq<map<nat, char>>, pending: seq<Op>, cq: seq<nat>, live: set<nat>)

  function UserData(op: Op): nat {
    match op
    case Write(_, buf, _, _) => buf
    case Sync(_) => 0
    case Final => MARKER
  }

  /** Nothing overtakes the final sync, and it overtakes nothing. */
  predicate CanRun(pending: seq<Op>, i: nat) {
    && i < |pending|
    && (pending[i].Final? ==> i == 0)
    && forall j :: 0 <= j < i ==> !pending[j].Final?
  }

  predicate Within(p: int, offset: nat, length: nat) {
    offset <= p < offset + length
  }

  function Written(file: map<nat, char>, bytes: Bytes, offset: nat): map<nat, char> {
    file + map p | offset <= p < offset + |bytes| && Within(p, offset, |bytes|) :: bytes[p - offset]
  }

  function Execute(m: Machine, i: nat): Machine
    requires i < |m.pending|
    requires m.pending[i].Write? ==> m.pending[i].file < |m.files|
  {
    var op := m.pending[i];
    Machine(if op.Write? then m.files[op.file := Written(m.files[op.file], op.bytes, op.offset)] else m.files,
            Without(m.pending, i),
            m.cq + [UserData(op)],
            m.live)
  }

  // --- The invariant of the store ----------------------------------------------------------------

  /** `texts` is what each file is meant to hold once everything has been written. */
  ghost predicate Agrees(op: Op, texts: seq<Bytes>) {
    op.Write? ==>
      && op.file < |texts|
      && op.offset + |op.bytes| <= |texts[op.file]|
      && op.bytes == texts[op.file][op.offset..op.offset + |op.bytes|]
  }

  ghost predicate Covers(op: Op, file: nat, p: nat) {
    op.Write? && op.file == file && Within(p, op.offset, |op.bytes|)
  }

  ghost predicate FileAgrees(m: Machine, texts: seq<Bytes>, f: nat)
    requires f < |m.files| == |texts|
  {
    && (forall p :: p in m.files[f] ==> p < |texts[f]| && m.files[f][p] == texts[f][p])
    && (forall p :: 0 <= p < |texts[f]| ==>
          p in m.files[f] || exists i :: 0 <= i < |m.pending| && Covers(m.pending[i], f, p))
  }

  ghost predicate DiskAgrees(m: Machine, texts: seq<Bytes>) {
    && |m.files| == |texts|
    && (forall i :: 0 <= i < |m.pending| ==> Agrees(m.pending[i], texts))
    && forall f :: 0 <= f < |texts| ==> FileAgrees(m, texts, f)
  }

  function BufferOf(op: Op): multiset<nat> {
    if op.Write? then multiset{op.buf} else multiset{}
  }

  function Buffers(pending: seq<Op>): multiset<nat> {
    if pending == [] then multiset{}
    else
      var last := pending[|pending| - 1];
      Buffers(pending[..|pending| - 1]) + BufferOf(last)
  }

  /** The buffers among the completions: everything but the marks of the syncs. */
  function Reported(cq: seq<nat>): multiset<nat> {
    multiset(cq)[0 := 0][MARKER := 0]
  }

  function DataOf(data: nat): multiset<nat> {
    if data == 0 || data == MARKER then multiset{} else multiset{data}
  }

  /** Every live buffer is waiting in exactly one place: in a pending write or in a completion. */
  ghost predicate BuffersAgree(m: Machine) {
    && Buffers(m.pending) + Reported(m.cq) == multiset(m.live)
    && 0 !in m.live && MARKER !in m.live
  }

  /** A file holds exactly this text. */
  ghost predicate Holds(file: map<nat, char>, text: Bytes) {
    && (forall p :: p in file <==> 0 <= p < |text|)
    && (forall p :: 0 <= p < |text| ==> p in file && file[p] == text[p])
  }

  /** With nothing pending every file is complete, whatever order the writes ran in. */
  lemma QuiescentIsComplete(m: Machine, texts: seq<Bytes>, f: nat)
    requires DiskAgrees(m, texts) && m.pending == [] && f < |texts|
    ensures f < |m.files| && Holds(m.files[f], texts[f])
  {
    assert FileAgrees(m, texts, f);
  }

  lemma BuffersMore(pending: seq<Op>, op: Op)
    ensures Buffers(pending + [op]) == Buffers(pending) + BufferOf(op)
  {
    assert (pending + [op])[..|pending|] == pending;
  }

  lemma WithoutEarlier(front: seq<Op>, last: Op, i: nat)
    requires i < |front|
    ensures Without(front + [last], i) == Without(front, i) + [last]
  {
  }

  lemma BuffersOfRest(front: seq<Op>, last: Op, i: nat)
    requires i < |front| && Buffers(front) == Buffers(Without(front, i)) + BufferOf(front[i])
    ensures Buffers(front + [last]) == Buffers(Without(front + [last], i)) + BufferOf(front[i])
  {
    WithoutEarlier(front, last, i);
    BuffersMore(Without(front, i), last);
    BuffersMore(front, last);
  }

  lemma {:induction false} BuffersWithout(pending: seq<Op>, i: nat)
    requires i < |pending|
    ensures Buffers(pending) == Buffers(Without(pending, i)) + BufferOf(pending[i])
  {
    var n := |pending| - 1;
    var front, last := pending[..n], pending[n];
    if i == n {
      assert Without(pending, i) == front;
    } else {
      BuffersWithout(front, i);
      BuffersOfRest(front, last, i);
      assert pending == front + [last];
    }
  }

  lemma WriteIsLive(m: Machine, i: nat)
    requires BuffersAgree(m) && i < |m.pending| && m.pending[i].Write?
    ensures m.pending[i].buf in m.live
  {
    BuffersWithout(m.pending, i);
    assert m.pending[i].buf in multiset(m.live);
  }

  lemma ReportedMore(cq: seq<nat>, data: nat)
    ensures Reported(cq + [data]) == Reported(cq) + DataOf(data)
  {
    assert multiset(cq + [data]) == multiset(cq) + multiset{data};
  }

  lemma ExecuteKeepsBuffers(m: Machine, i: nat)
    requires BuffersAgree(m) && i < |m.pending| && (m.pending[i].Write? ==> m.pending[i].file < |m.files|)
    ensures BuffersAgree(Execute(m, i))
  {
    BuffersWithout(m.pending, i);
    ReportedMore(m.cq, UserData(m.pending[i]));
    if m.pending[i].Write? {
      WriteIsLive(m, i);
    }
  }

  lemma Remaining(m: Machine, i: nat, f: nat, p: nat)
    requires i < |m.pending| && !Covers(m.pending[i], f, p)
    requires exists j :: 0 <= j < |m.pending| && Covers(m.pending[j], f, p)
    ensures var rest := Without(m.pending, i);
            exists j :: 0 <= j < |rest| && Covers(rest[j], f, p)
  {
    var j :| 0 <= j < |m.pending| && Covers(m.pending[j], f, p);
    var rest := Without(m.pending, i);
    assert rest[if j < i then j else j - 1] == m.pending[j];
  }

  lemma ExecuteKeepsFile(m: Machine, texts: seq<Bytes>, i: nat, f: nat)
    requires DiskAgrees(m, texts) && i < |m.pending| && f < |texts|
    requires m.pending[i].Write? ==> m.pending[i].file < |m.files|
    ensures FileAgrees(Execute(m, i), texts, f)
  {
    var op, after := m.pending[i], Execute(m, i);
    assert Agrees(op, texts) && FileAgrees(m, texts, f);
    forall p | 0 <= p < |texts[f]|
      ensures p in after.files[f] || exists j :: 0 <= j < |after.pending| && Covers(after.pending[j], f, p)
    {
      if p !in m.files[f] && !Covers(op, f, p) {
        Remaining(m, i, f, p);
      }
    }
    forall p | p in after.files[f]
      ensures p < |texts[f]| && after.files[f][p] == texts[f][p]
    {
      if Covers(op, f, p) {
        assert op.bytes[p - op.offset] == texts[f][p];
      }
    }
  }

  /** Executing any runnable operation keeps the invariant: every write puts what the file is meant to
      hold there, so neither order nor overlap matters. */
  lemma ExecuteKeepsDisk(m: Machine, texts: seq<Bytes>, i: nat)
    requires DiskAgrees(m, texts) && i < |m.pending|
    ensures m.pending[i].Write? ==> m.pending[i].file < |m.files|
    ensures DiskAgrees(Execute(m, i), texts)
  {
    assert Agrees(m.pending[i], texts);
    forall f | 0 <= f < |texts|
      ensures FileAgrees(Execute(m, i), texts, f)
    {
      ExecuteKeepsFile(m, texts, i, f);
    }
  }

  // --- Appending ---------------------------------------------------------------------------------

  function Submitted(m: Machine, f: nat, buf: nat, bytes: Bytes, offset: nat): Machine {
    m.(pending := m.pending + [Write(f, buf, bytes, offset)], live := m.live + {buf})
  }

  lemma AppendAgrees(op: Op, texts: seq<Bytes>, f: nat, bytes: Bytes)
    requires f < |texts| && Agrees(op, texts)
    ensures Agrees(op, texts[f := texts[f] + bytes])
  {
  }

  lemma AppendKeepsFile(m: Machine, texts: seq<Bytes>, f: nat, buf: nat, bytes: Bytes, g: nat)
    requires DiskAgrees(m, texts) && f < |texts| && g < |texts|
    ensures FileAgrees(Submitted(m, f, buf, bytes, |texts[f]|), texts[f := texts[f] + bytes], g)
  {
    var after, texts' := Submitted(m, f, buf, bytes, |texts[f]|), texts[f := texts[f] + bytes];
    assert FileAgrees(m, texts, g);
    var n := |m.pending|;
    forall p | 0 <= p < |texts'[g]|
      ensures p in after.files[g] || exists j :: 0 <= j < |after.pending| && Covers(after.pending[j], g, p)
    {
      if p < |texts[g]| && p !in m.files[g] {
        var j :| 0 <= j < n && Covers(m.pending[j], g, p);
        assert Covers(after.pending[j], g, p);
      } else if p >= |texts[g]| {
        assert Covers(after.pending[n], g, p);
      }
    }
  }

  /** Submitting a record at the end of its file keeps the invariant for the longer text. */
  lemma AppendKeepsDisk(m: Machine, texts: seq<Bytes>, f: nat, buf: nat, bytes: Bytes)
    requires DiskAgrees(m, texts) && f < |texts|
    ensures DiskAgrees(Submitted(m, f, buf, bytes, |texts[f]|), texts[f := texts[f] + bytes])
  {
    var after, texts' := Submitted(m, f, buf, bytes, |texts[f]|), texts[f := texts[f] + bytes];
    forall i | 0 <= i < |after.pending|
      ensures Agrees(after.pending[i], texts')
    {
      if i < |m.pending| {
        AppendAgrees(m.pending[i], texts, f, bytes);
      } else {
        assert texts'[f][|texts[f]|..|texts[f]| + |bytes|] == bytes;
      }
    }
    forall g | 0 <= g < |texts'|
      ensures FileAgrees(after, texts', g)
    {
      AppendKeepsFile(m, texts, f, buf, bytes, g);
    }
  }

  lemma AppendKeepsBuffers(m: Machine, f: nat, buf: nat, bytes: Bytes, offset: nat)
    requires BuffersAgree(m) && buf !in m.live && buf != 0 && buf != MARKER
    ensures BuffersAgree(Submitted(m, f, buf, bytes, offset))
  {
    var op := Write(f, buf, bytes, offset);
    assert (m.pending + [op])[..|m.pending|] == m.pending;
    assert multiset(m.live + {buf}) == multiset(m.live) + multiset{buf};
  }

  /** A sync writes nothing and owns no buffer. */
  lemma SyncKeeps(m: Machine, texts: seq<Bytes>, op: Op)
    requires DiskAgrees(m, texts) && BuffersAgree(m) && !op.Write?
    ensures var after := m.(pending := m.pending + [op]); DiskAgrees(after, texts) && BuffersAgree(after)
  {
    var after := m.(pending := m.pending + [op]);
    assert after.pending[..|m.pending|] == m.pending;
    forall f | 0 <= f < |texts|
      ensures FileAgrees(after, texts, f)
    {
      assert FileAgrees(m, texts, f);
      forall p | 0 <= p < |texts[f]| && p !in m.files[f]
        ensures exists j :: 0 <= j < |after.pending| && Covers(after.pending[j], f, p)
      {
        var j :| 0 <= j < |m.pending| && Covers(m.pending[j], f, p);
        assert Covers(after.pending[j], f, p);
      }
    }
  }

  // --- Reaping -----------------------------------------------------------------------------------

  function Reaped(m: Machine): Machine
    requires m.cq != []
  {
    m.(cq := m.cq[1..], live := m.live - {m.cq[0]})
  }

  lemma ReportedHead(cq: seq<nat>)
    requires cq != []
    ensures Reported(cq) == DataOf(cq[0]) + Reported(cq[1..])
  {
    assert cq == [cq[0]] + cq[1..];
    assert multiset(cq) == multiset{cq[0]} + multiset(cq[1..]);
  }

  /** A completion that carries a buffer carries a live one, so freeing it is right, and nobody else
      will free it again. */
  lemma ReapKeepsBuffers(m: Machine)
    requires BuffersAgree(m) && m.cq != []
    ensures m.cq[0] != 0 && m.cq[0] != MARKER ==> m.cq[0] in m.live
    ensures BuffersAgree(Reaped(m))
  {
    var data := m.cq[0];
    ReportedHead(m.cq);
    if data != 0 && data != MARKER {
      assert data in multiset(m.live);
      assert multiset(m.live - {data}) == multiset(m.live) - multiset{data};
      assert Buffers(m.pending) + Reported(m.cq[1..]) == multiset(m.live) - multiset{data};
    } else {
      assert m.live - {data} == m.live;
    }
  }

  lemma ReapKeepsDisk(m: Machine, texts: seq<Bytes>)
    requires DiskAgrees(m, texts) && m.cq != []
    ensures DiskAgrees(Reaped(m), texts)
  {
    forall f | 0 <= f < |texts|
      ensures FileAgrees(Reaped(m), texts, f)
    {
      assert FileAgrees(m, texts, f);
    }
  }

  lemma ReapKeeps(m: Machine, texts: seq<Bytes>)
    requires DiskAgrees(m, texts) && BuffersAgree(m) && m.cq != []
    ensures m.cq[0] != 0 && m.cq[0] != MARKER ==> m.cq[0] in m.live
    ensures DiskAgrees(Reaped(m), texts) && BuffersAgree(Reaped(m))
  {
    ReapKeepsBuffers(m);
    ReapKeepsDisk(m, texts);
  }
}
