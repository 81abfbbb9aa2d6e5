/** The append-only replica journal as bytes: framing, loading with torn-tail repair, and the
    live object whose every append keeps file and memory in step. */
module Journals {
  import opened Basics
  import opened Protocol

  const LF: byte := 10
  const CR: byte := 13

  datatype Record = PrepareRecord(entry: Entry) | CommitRecord(index: int) | SnapshotRecord(index: int)

  /** Encoding of one record as a checked JSON envelope, and its decoding with the checks on
      version, checksum, field names and entry validity. */
  datatype Codec = Codec(encode: Record -> seq<byte>, decode: seq<byte> -> Option<Record>, valid: Entry -> bool)

  predicate ValidRecord(c: Codec, r: Record) {
    r.PrepareRecord? ==> c.valid(r.entry)
  }

  /** Control characters inside JSON strings are escaped (section 7 of RFC 8259), so an encoded
      record holds no raw LF or CR; and a valid record decodes to itself. */
  ghost predicate Sound(c: Codec) {
    && (forall r :: c.encode(r) != [] && LF !in c.encode(r) && CR !in c.encode(r))
    && (forall r :: ValidRecord(c, r) ==> c.decode(c.encode(r)) == Some(r))
  }

  // ---------------------------------------------------------------- loading

  /** One record of `_load`. */
  function ApplyRecord(j: Journal, r: Record): Result<Journal> {
    match r
    case PrepareRecord(e) =>
      if e.index in j.prepared && j.prepared[e.index].checksum != e.checksum then Err
      else Ok(j.(prepared := j.prepared[e.index := e]))
    case CommitRecord(i) => if i !in j.prepared then Err else Ok(j.(committed := j.committed + {i}))
    case SnapshotRecord(i) => Ok(j.(snapshotIndex := if i > j.snapshotIndex then i else j.snapshotIndex))
  }

  function ReplayFrom(j: Journal, records: seq<Record>): Result<Journal>
    decreases |records|
  {
    if records == [] then Ok(j)
    else
      var r := ApplyRecord(j, records[0]);
      if r.Err? then Err else ReplayFrom(r.value, records[1..])
  }

  /** Position of the last LF, or -1. */
  function LastLf(data: seq<byte>): (k: int)
    ensures -1 <= k < |data|
  {
    if data == [] then -1
    else if data[|data| - 1] == LF then |data| - 1
    else LastLf(data[..|data| - 1])
  }

  predicate IsBreak(b: byte) { b == LF || b == CR }

  function FirstBreak(data: seq<byte>): (k: nat)
    ensures k <= |data|
    ensures forall i :: 0 <= i < k ==> !IsBreak(data[i])
    ensures k < |data| ==> IsBreak(data[k])
  {
    if data == [] || IsBreak(data[0]) then 0 else 1 + FirstBreak(data[1..])
  }

  /** The non-empty lines of `bytes.splitlines`. */
  function Lines(data: seq<byte>): seq<seq<byte>>
    decreases |data|
  {
    if data == [] then []
    else
      var k := FirstBreak(data);
      (if k > 0 then [data[..k]] else []) + (if k < |data| then Lines(data[k + 1..]) else [])
  }

  function LoadLine(c: Codec, j: Journal, line: seq<byte>): Result<Journal> {
    var r := c.decode(line);
    if r.None? then Err else ApplyRecord(j, r.value)
  }

  function LoadLines(c: Codec, j: Journal, lines: seq<seq<byte>>): Result<Journal>
    decreases |lines|
  {
    if lines == [] then Ok(j)
    else
      var r := LoadLine(c, j, lines[0]);
      if r.Err? then Err else LoadLines(c, r.value, lines[1..])
  }

  /** `_load`: drop a torn tail, then decode and apply every line. */
  function Load(c: Codec, data: seq<byte>): Result<Journal> {
    LoadLines(c, EmptyJournal, Lines(data[..LastLf(data) + 1]))
  }

  // ---------------------------------------------------------------- framing

  function Serialize(c: Codec, records: seq<Record>): seq<byte>
    decreases |records|
  {
    if records == [] then [] else c.encode(records[0]) + [LF] + Serialize(c, records[1..])
  }

  /** How many records lie wholly within the first `n` bytes. */
  function CompleteRecords(c: Codec, records: seq<Record>, n: nat): (k: nat)
    ensures k <= |records|
    decreases |records|
  {
    if records == [] || |c.encode(records[0])| + 1 > n then 0
    else 1 + CompleteRecords(c, records[1..], n - |c.encode(records[0])| - 1)
  }

  ghost predicate NoLf(s: seq<byte>) { forall i :: 0 <= i < |s| ==> s[i] != LF }

  /** A cut file is the complete records followed by bytes without LF. */
  lemma {:induction false} CutShape(c: Codec, records: seq<Record>, n: nat) returns (torn: seq<byte>)
    requires Sound(c) && n <= |Serialize(c, records)|
    ensures Serialize(c, records)[..n] == Serialize(c, records[..CompleteRecords(c, records, n)]) + torn
    ensures NoLf(torn)
    ensures var k := CompleteRecords(c, records, n);
      |Serialize(c, records[..k])| <= n && (k < |records| ==> |Serialize(c, records[..k + 1])| > n)
    decreases |records|
  {
    var k := CompleteRecords(c, records, n);
    if records == [] {
      torn := [];
    } else {
      var line := c.encode(records[0]);
      if |line| + 1 > n {
        torn := line[..n];
        assert Serialize(c, records)[..n] == torn;
        assert records[..1] == [records[0]] && records[..1][1..] == [];
        assert Serialize(c, records[..1]) == line + [LF] + [];
        assert forall i :: 0 <= i < |torn| ==> torn[i] in line;
      } else {
        var rest := records[1..];
        torn := CutShape(c, rest, n - |line| - 1);
        assert records[..k][1..] == rest[..k - 1];
        assert Serialize(c, records)[..n] == line + [LF] + Serialize(c, rest)[..n - |line| - 1];
        assert Serialize(c, records[..k]) == line + [LF] + Serialize(c, rest[..k - 1]);
        if k < |records| {
          assert records[..k + 1][1..] == rest[..k];
        }
      }
    }
  }

  lemma {:induction false} LastLfBeforeTail(data: seq<byte>, torn: seq<byte>)
    requires NoLf(torn) && (data == [] || data[|data| - 1] == LF)
    ensures LastLf(data + torn) == |data| - 1
  {
    if torn == [] {
      assert data + torn == data;
    } else {
      var front := torn[..|torn| - 1];
      assert (data + torn)[..|data + torn| - 1] == data + front;
      LastLfBeforeTail(data, front);
    }
  }

  lemma {:induction false} SerializedEndsInLf(c: Codec, records: seq<Record>)
    ensures Serialize(c, records) == [] || Serialize(c, records)[|Serialize(c, records)| - 1] == LF
    decreases |records|
  {
    if records != [] { SerializedEndsInLf(c, records[1..]); }
  }

  lemma FirstBreakOfLine(line: seq<byte>, rest: seq<byte>)
    requires LF !in line && CR !in line
    ensures FirstBreak(line + [LF] + rest) == |line|
  {
    var data := line + [LF] + rest;
    var k := FirstBreak(data);
    assert forall i :: 0 <= i < |line| ==> data[i] == line[i] && line[i] in line;
    assert data[|line|] == LF;
  }

  /** Loading a sequence of complete records is replaying them. */
  lemma {:induction false} LoadSerialized(c: Codec, j: Journal, records: seq<Record>)
    requires Sound(c) && forall i :: 0 <= i < |records| ==> ValidRecord(c, records[i])
    ensures LoadLines(c, j, Lines(Serialize(c, records))) == ReplayFrom(j, records)
    decreases |records|
  {
    if records != [] {
      var line, rest := c.encode(records[0]), Serialize(c, records[1..]);
      var data := Serialize(c, records);
      FirstBreakOfLine(line, rest);
      assert data[..|line|] == line && data[|line| + 1..] == rest;
      assert Lines(data) == [line] + Lines(rest);
      assert ValidRecord(c, records[0]);
      var r := ApplyRecord(j, records[0]);
      if r.Ok? {
        assert forall i :: 0 <= i < |records[1..]| ==> records[1..][i] == records[i + 1];
        LoadSerialized(c, r.value, records[1..]);
        assert ([line] + Lines(rest))[1..] == Lines(rest);
      }
    }
  }

  lemma {:induction false} ReplayPrefix(j: Journal, records: seq<Record>, k: nat)
    requires k <= |records| && ReplayFrom(j, records).Ok?
    ensures ReplayFrom(j, records[..k]).Ok?
    decreases |records|
  {
    if k > 0 {
      assert records[..k][1..] == records[1..][..k - 1];
      ReplayPrefix(ApplyRecord(j, records[0]).value, records[1..], k - 1);
    }
  }

  /** Cut a journal anywhere and reload it: the result is exactly the state after the complete
      records, the repaired file is exactly those records, and loading never fails. */
  lemma CutJournalReloads(c: Codec, records: seq<Record>, n: nat)
    requires Sound(c) && (forall i :: 0 <= i < |records| ==> ValidRecord(c, records[i]))
    requires ReplayFrom(EmptyJournal, records).Ok? && n <= |Serialize(c, records)|
    ensures var data, k := Serialize(c, records)[..n], CompleteRecords(c, records, n);
      && Load(c, data) == ReplayFrom(EmptyJournal, records[..k]) && Load(c, data).Ok?
      && data[..LastLf(data) + 1] == Serialize(c, records[..k])
      && |Serialize(c, records[..k])| <= n && (k < |records| ==> |Serialize(c, records[..k + 1])| > n)
  {
    var k := CompleteRecords(c, records, n);
    var torn := CutShape(c, records, n);
    var whole := Serialize(c, records[..k]);
    SerializedEndsInLf(c, records[..k]);
    LastLfBeforeTail(whole, torn);
    assert (whole + torn)[..|whole|] == whole;
    LoadSerialized(c, EmptyJournal, records[..k]);
    ReplayPrefix(EmptyJournal, records, k);
  }

  lemma UncutJournalReloads(c: Codec, records: seq<Record>)
    requires Sound(c) && (forall i :: 0 <= i < |records| ==> ValidRecord(c, records[i]))
    requires ReplayFrom(EmptyJournal, records).Ok?
    ensures Load(c, Serialize(c, records)) == ReplayFrom(EmptyJournal, records)
    ensures Serialize(c, records)[..LastLf(Serialize(c, records)) + 1] == Serialize(c, records)
  {
    var data := Serialize(c, records);
    SerializedEndsInLf(c, records);
    LastLfBeforeTail(data, []);
    assert data + [] == data && data[..|data|] == data;
    LoadSerialized(c, EmptyJournal, records);
  }

  lemma TornTail(c: Codec, records: seq<Record>, torn: seq<byte>)
    requires Sound(c) && (forall i :: 0 <= i < |records| ==> ValidRecord(c, records[i])) && NoLf(torn)
    requires ReplayFrom(EmptyJournal, records).Ok?
    ensures var data := Serialize(c, records) + torn;
      && Load(c, data) == ReplayFrom(EmptyJournal, records) && data[..LastLf(data) + 1] == Serialize(c, records)
  {
    var before := Serialize(c, records);
    SerializedEndsInLf(c, records);
    LastLfBeforeTail(before, torn);
    hide Serialize, LastLf;
    assert (before + torn)[..|before|] == before;
    LoadSerialized(c, EmptyJournal, records);
  }

  /** An append cut after `n` of its bytes: the record counts if and only if its LF is there, and the
      repaired file loads to the same state. */
  lemma TornAppend(c: Codec, records: seq<Record>, r: Record, n: nat)
    requires Sound(c) && (forall i :: 0 <= i < |records| ==> ValidRecord(c, records[i])) && ValidRecord(c, r)
    requires ReplayFrom(EmptyJournal, records + [r]).Ok? && n <= |c.encode(r)| + 1
    ensures var data := Serialize(c, records) + (c.encode(r) + [LF])[..n];
      var whole := if n == |c.encode(r)| + 1 then records + [r] else records;
      && Load(c, data) == ReplayFrom(EmptyJournal, whole) && Load(c, data).Ok?
      && data[..LastLf(data) + 1] == Serialize(c, whole) && Load(c, data[..LastLf(data) + 1]) == Load(c, data)
  {
    var line := c.encode(r) + [LF];
    var torn := line[..n];
    assert (records + [r])[..|records|] == records;
    ReplayPrefix(EmptyJournal, records + [r], |records|);
    if n == |line| {
      assert torn == line;
      SerializeAppend(c, records, r);
      hide Load, LastLf, Serialize, ReplayFrom;
      UncutJournalReloads(c, records + [r]);
    } else {
      assert forall i :: 0 <= i < |torn| ==> torn[i] in c.encode(r);
      hide Load, LastLf, Serialize, ReplayFrom;
      TornTail(c, records, torn);
      UncutJournalReloads(c, records);
    }
  }

  // ---------------------------------------------------------------- appending

  lemma {:induction false} SerializeAppend(c: Codec, records: seq<Record>, r: Record)
    ensures Serialize(c, records + [r]) == Serialize(c, records) + (c.encode(r) + [LF])
    decreases |records|
  {
    if records == [] {
      assert ([] + [r])[1..] == [];
      assert Serialize(c, [r]) == c.encode(r) + [LF] + [];
    } else {
      assert (records + [r])[1..] == records[1..] + [r];
      SerializeAppend(c, records[1..], r);
    }
  }

  lemma {:induction false} ReplayAppend(j: Journal, records: seq<Record>, r: Record)
    requires ReplayFrom(j, records).Ok?
    ensures ReplayFrom(j, records + [r]) == ApplyRecord(ReplayFrom(j, records).value, r)
    decreases |records|
  {
    if records == [] {
      assert ([] + [r])[1..] == [];
    } else {
      assert (records + [r])[1..] == records[1..] + [r];
      ReplayAppend(ApplyRecord(j, records[0]).value, records[1..], r);
    }
  }

  lemma {:induction false} ReplayWellFormed(j: Journal, records: seq<Record>)
    requires WellFormed(j) && ReplayFrom(j, records).Ok?
    ensures WellFormed(ReplayFrom(j, records).value)
    decreases |records|
  {
    if records != [] { ReplayWellFormed(ApplyRecord(j, records[0]).value, records[1..]); }
  }

  /** `ReplicaJournal`: the file, and the maps kept beside it. */
  class ReplicaJournal {
    const codec: Codec
    var file: seq<byte>
    var prepared: map<int, Entry>
    var committed: set<int>
    var snapshotIndex: int
    ghost var records: seq<Record>

    function State(): Journal
      reads this
    {
      Journal(prepared, committed, snapshotIndex)
    }

    /** The file is the records appended so far, and replaying them gives the live maps. */
    ghost predicate Valid()
      reads this
    {
      && Sound(codec)
      && (forall i :: 0 <= i < |records| ==> ValidRecord(codec, records[i]))
      && file == Serialize(codec, records)
      && ReplayFrom(EmptyJournal, records) == Ok(State())
      && WellFormed(State())
    }

    /** The file is any cut of a well-formed journal, whatever memory holds. */
    ghost predicate Cut(all: seq<Record>, n: nat)
      reads this
    {
      && Sound(codec) && (forall i :: 0 <= i < |all| ==> ValidRecord(codec, all[i]))
      && ReplayFrom(EmptyJournal, all).Ok? && n <= |Serialize(codec, all)| && file == Serialize(codec, all)[..n]
    }

    /** A new process builds the journal from the file. */
    method Reload(ghost all: seq<Record>, ghost n: nat)
      requires Cut(all, n)
      modifies this
      ensures Valid() && records == all[..CompleteRecords(codec, all, n)]
      ensures Load(codec, old(file)) == Ok(State()) && file == old(file)[..LastLf(old(file)) + 1]
    {
      CutJournalReloads(codec, all, n);
      var loaded, repaired := LoadFile(codec, file);
      hide Load, LastLf, Serialize, ReplayFrom, CompleteRecords;
      file, records := repaired, all[..CompleteRecords(codec, all, n)];
      prepared, committed, snapshotIndex := loaded.value.prepared, loaded.value.committed, loaded.value.snapshotIndex;
      assert State() == loaded.value;
      ReplayWellFormed(EmptyJournal, records);
    }

    constructor (codec: Codec)
      requires Sound(codec)
      ensures Valid() && State() == EmptyJournal && this.codec == codec && file == []
    {
      this.codec := codec;
      file := [];
      prepared, committed, snapshotIndex := map[], {}, 0;
      records := [];
    }

    method Append(r: Record)
      requires Sound(codec) && ValidRecord(codec, r) && file == Serialize(codec, records)
      requires ReplayFrom(EmptyJournal, records).Ok?
      requires forall i :: 0 <= i < |records| ==> ValidRecord(codec, records[i])
      modifies this`file, this`records
      ensures file == old(file) + (codec.encode(r) + [LF]) && records == old(records) + [r]
      ensures file == Serialize(codec, records)
      ensures ReplayFrom(EmptyJournal, records) == ApplyRecord(ReplayFrom(EmptyJournal, old(records)).value, r)
      ensures forall i :: 0 <= i < |records| ==> ValidRecord(codec, records[i])
    {
      SerializeAppend(codec, records, r);
      ReplayAppend(EmptyJournal, records, r);
      file := file + (codec.encode(r) + [LF]);
      records := records + [r];
    }

    method Prepare(e: Entry) returns (ok: bool)
      requires Valid()
      modifies this
      ensures Valid()
      ensures ok <==> codec.valid(e) && JournalPrepare(old(State()), e).Ok?
      ensures State() == if ok then JournalPrepare(old(State()), e).value else old(State())
      ensures file == if ok && e.index !in old(prepared) then old(file) + (codec.encode(PrepareRecord(e)) + [LF]) else old(file)
    {
      if !codec.valid(e) { return false; }
      if e.index in prepared { return prepared[e.index].checksum == e.checksum; }
      Append(PrepareRecord(e));
      prepared := prepared[e.index := e];
      ok := true;
    }

    method Commit(index: int) returns (ok: bool)
      requires Valid()
      modifies this
      ensures Valid()
      ensures ok <==> JournalCommit(old(State()), index).Ok?
      ensures State() == if ok then JournalCommit(old(State()), index).value else old(State())
      ensures file == if ok && index !in old(committed) then old(file) + (codec.encode(CommitRecord(index)) + [LF]) else old(file)
    {
      if index !in prepared { return false; }
      if index !in committed {
        Append(CommitRecord(index));
        committed := committed + {index};
      } else {
        assert committed + {index} == committed;
      }
      ok := true;
    }

    method InstallSnapshot(index: int) returns (ok: bool)
      requires Valid()
      modifies this
      ensures Valid()
      ensures ok <==> index >= old(snapshotIndex)
      ensures State() == if ok then old(State()).(snapshotIndex := index) else old(State())
    {
      if index < snapshotIndex { return false; }
      Append(SnapshotRecord(index));
      snapshotIndex := index;
      ok := true;
    }
  }

  method CompleteSize(data: seq<byte>) returns (size: nat)
    ensures size == LastLf(data) + 1
  {
    size := |data|;
    assert data[..size] == data;
    while size > 0 && data[size - 1] != LF
      invariant 0 <= size <= |data|
      invariant LastLf(data[..size]) == LastLf(data)
    {
      assert data[..size][..size - 1] == data[..size - 1];
      size := size - 1;
    }
    assert size > 0 ==> data[..size][size - 1] == LF;
  }

  method LineEnd(data: seq<byte>, start: nat) returns (end: nat)
    requires start <= |data|
    ensures start <= end <= |data| && FirstBreak(data[start..]) == end - start
  {
    end := start;
    while end < |data| && !IsBreak(data[end])
      invariant start <= end <= |data|
      invariant FirstBreak(data[start..]) == end - start + FirstBreak(data[end..])
    {
      assert data[end..][1..] == data[end + 1..];
      end := end + 1;
    }
  }

  lemma LinesAt(data: seq<byte>, start: nat, end: nat)
    requires start < |data| && start <= end <= |data| && FirstBreak(data[start..]) == end - start
    ensures var next := if end < |data| then end + 1 else end;
      Lines(data[start..]) == if end > start then [data[start..end]] + Lines(data[next..]) else Lines(data[next..])
  {
    var rest := data[start..];
    assert rest[..end - start] == data[start..end];
    if end < |data| { assert rest[end - start + 1..] == data[end + 1..]; }
  }

  lemma NoLines(c: Codec, j: Journal)
    ensures LoadLines(c, j, Lines([])) == Ok(j)
  {
  }

  lemma LoadFirstLine(c: Codec, j: Journal, line: seq<byte>, lines: seq<seq<byte>>)
    ensures LoadLines(c, j, [line] + lines) ==
      var r := LoadLine(c, j, line); if r.Err? then Err else LoadLines(c, r.value, lines)
  {
    assert ([line] + lines)[1..] == lines;
  }

  /** `_load` as it runs: find the last LF backwards, cut, then walk the bytes line by line. The
      file is truncated only after every line has been accepted. */
  method LoadFile(c: Codec, data: seq<byte>) returns (r: Result<Journal>, repaired: seq<byte>)
    ensures r == Load(c, data)
    ensures repaired == if r.Ok? then data[..LastLf(data) + 1] else data
  {
    var size := CompleteSize(data);
    repaired := data[..size];
    hide Lines, LoadLine, LastLf, FirstBreak, ApplyRecord;
    var j := EmptyJournal;
    var start := 0;
    assert repaired[0..] == repaired;
    while start < |repaired|
      invariant 0 <= start <= |repaired|
      invariant LoadLines(c, EmptyJournal, Lines(repaired)) == LoadLines(c, j, Lines(repaired[start..]))
    {
      var end := LineEnd(repaired, start);
      LinesAt(repaired, start, end);
      var next := if end < |repaired| then end + 1 else end;
      if end > start {
        var line := repaired[start..end];
        var applied := LoadLine(c, j, line);
        LoadFirstLine(c, j, line, Lines(repaired[next..]));
        if applied.Err? { return Err, data; }
        j := applied.value;
      }
      start := next;
    }
    assert repaired[start..] == [];
    NoLines(c, j);
    r := Ok(j);
  }
}
