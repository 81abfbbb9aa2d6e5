/** `commit` down to single bytes. Its crash points are every byte of the prepare record and of the
    commit marker that it appends to the journal file, and every later durable write. */
module CrashImages {
  import opened Basics
  import opened Protocol
  import opened Replicas
  import opened Journals
  import opened ReplicaShards

  /** The records that committing an entry appends. */
  function Appended(j: Journal, e: Entry): (records: seq<Record>)
    ensures |records| <= 2
  {
    (if e.index in j.prepared then [] else [PrepareRecord(e)]) + (if e.index in j.committed then [] else [CommitRecord(e.index)])
  }

  /** A replica whose journal file holds `records`. */
  ghost predicate OnFile(c: Codec, records: seq<Record>, r: Replica) {
    && Sound(c) && (forall i :: 0 <= i < |records| ==> ValidRecord(c, records[i]))
    && ReplayFrom(EmptyJournal, records) == Ok(r.journal) && Quiescent(r)
  }

  /** The file after `m` bytes of what the commit appends. */
  function CutFile(c: Codec, records: seq<Record>, r: Replica, e: Entry, m: nat): seq<byte>
    requires m <= |Serialize(c, Appended(r.journal, e))|
  {
    Serialize(c, records) + Serialize(c, Appended(r.journal, e))[..m]
  }

  lemma {:induction false} SerializeConcat(c: Codec, a: seq<Record>, b: seq<Record>)
    ensures Serialize(c, a + b) == Serialize(c, a) + Serialize(c, b)
    decreases |a|
  {
    if a == [] {
      assert a + b == b;
    } else {
      assert (a + b)[1..] == a[1..] + b;
      SerializeConcat(c, a[1..], b);
    }
  }

  lemma {:induction false} ReplayConcat(j: Journal, a: seq<Record>, b: seq<Record>)
    requires ReplayFrom(j, a).Ok?
    ensures ReplayFrom(j, a + b) == ReplayFrom(ReplayFrom(j, a).value, b)
    decreases |a|
  {
    if a == [] {
      assert a + b == b;
    } else {
      assert (a + b)[1..] == a[1..] + b;
      ReplayConcat(ApplyRecord(j, a[0]).value, a[1..], b);
    }
  }

  lemma ReplayOne(j: Journal, r: Record)
    ensures ReplayFrom(j, [r]) == ApplyRecord(j, r)
  {
    assert [r][1..] == [];
  }

  /** How many of the appended records are whole, as a stage of the commit. */
  function StageOf(j: Journal, e: Entry, whole: nat): (q: nat)
    ensures q <= 2
  {
    if whole == |Appended(j, e)| then 2 else if whole == 0 then 0 else 1
  }

  /** The first few of the appended records bring the journal to a stage of the commit. */
  lemma AppendedReachStage(r: Replica, e: Entry, k: nat)
    requires WellFormed(r.journal) && JournalPrepare(r.journal, e).Ok? && k <= |Appended(r.journal, e)|
    ensures ReplayFrom(r.journal, Appended(r.journal, e)[..k]).Ok?
    ensures var q := StageOf(r.journal, e, k);
      r.(journal := ReplayFrom(r.journal, Appended(r.journal, e)[..k]).value) == CommitStages(r, e)[q]
  {
    var a := Appended(r.journal, e)[..k];
    var j := r.journal;
    if k == 2 {
      assert a == [PrepareRecord(e), CommitRecord(e.index)];
      assert a[1..] == [CommitRecord(e.index)];
      ReplayOne(ApplyRecord(j, PrepareRecord(e)).value, CommitRecord(e.index));
    } else if k == 1 {
      assert a == [Appended(j, e)[0]];
      ReplayOne(j, a[0]);
    } else {
      assert a == [];
    }
    if e.index in j.committed { assert j.committed + {e.index} == j.committed; }
  }

  /** A cut of what is appended to a file: the records that are whole, and a tail without LF. */
  lemma CutTail(c: Codec, records: seq<Record>, more: seq<Record>, m: nat) returns (torn: seq<byte>)
    requires Sound(c) && m <= |Serialize(c, more)|
    ensures var k := CompleteRecords(c, more, m);
      && Serialize(c, records) + Serialize(c, more)[..m] == Serialize(c, records + more[..k]) + torn && NoLf(torn)
      && (k == |more| <==> m == |Serialize(c, more)|)
  {
    torn := CutShape(c, more, m);
    var k := CompleteRecords(c, more, m);
    SerializeConcat(c, records, more[..k]);
    if k < |more| {
      assert more == more[..k + 1] + more[k + 1..];
      SerializeConcat(c, more[..k + 1], more[k + 1..]);
    } else {
      assert more[..k] == more;
    }
    hide Serialize;
    assert Serialize(c, records) + (Serialize(c, more[..k]) + torn) == (Serialize(c, records) + Serialize(c, more[..k])) + torn;
  }

  /** The file loads, before and after its repair, to the journal of a stage of the commit. */
  ghost predicate LoadsToStage(c: Codec, file: seq<byte>, r: Replica, e: Entry, q: nat)
    requires JournalPrepare(r.journal, e).Ok? && q <= 2
  {
    && Load(c, file).Ok? && r.(journal := Load(c, file).value) == CommitStages(r, e)[q]
    && Load(c, file[..LastLf(file) + 1]) == Load(c, file)
  }

  /** Cut the file at any byte of what a commit appends: it loads, to the journal of the stage before or
      after the record that was cut, and the marker counts if and only if it is whole. */
  lemma CutFileIsAStage(c: Codec, records: seq<Record>, r: Replica, e: Entry, m: nat)
    requires OnFile(c, records, r) && c.valid(e) && JournalPrepare(r.journal, e).Ok?
    requires m <= |Serialize(c, Appended(r.journal, e))|
    ensures var q := StageOf(r.journal, e, CompleteRecords(c, Appended(r.journal, e), m));
      LoadsToStage(c, CutFile(c, records, r, e, m), r, e, q) && (q >= 2 <==> m == |Serialize(c, Appended(r.journal, e))|)
  {
    var more := Appended(r.journal, e);
    assert forall i :: 0 <= i < |more| ==> ValidRecord(c, more[i]);
    var k := CompleteRecords(c, more, m);
    assert WellFormed(r.journal) && Sound(c) && ReplayFrom(EmptyJournal, records) == Ok(r.journal);
    hide Serialize, LastLf, Load, CompleteRecords, CommitStages, Appended, JournalPrepare, ReplayFrom;
    hide Sound, Quiescent, WellFormed, NoLf, ValidRecord;
    var torn := CutTail(c, records, more, m);
    AppendedReachStage(r, e, k);
    WholeThenTorn(c, records, r.journal, more[..k], torn);
  }

  /** A file, some more whole records and a torn tail load to the records replayed on the file's state. */
  lemma WholeThenTorn(c: Codec, records: seq<Record>, j: Journal, more: seq<Record>, torn: seq<byte>)
    requires Sound(c) && NoLf(torn) && (forall i :: 0 <= i < |records| ==> ValidRecord(c, records[i]))
    requires forall i :: 0 <= i < |more| ==> ValidRecord(c, more[i])
    requires ReplayFrom(EmptyJournal, records) == Ok(j) && ReplayFrom(j, more).Ok?
    ensures var file := Serialize(c, records + more) + torn;
      Load(c, file) == ReplayFrom(j, more) && Load(c, file[..LastLf(file) + 1]) == Load(c, file)
  {
    hide Serialize, LastLf, Load;
    ReplayConcat(EmptyJournal, records, more);
    hide ReplayFrom;
    TornTail(c, records + more, torn);
    UncutJournalReloads(c, records + more);
  }

  function Loaded(c: Codec, file: seq<byte>): Journal {
    var j := Load(c, file);
    if j.Ok? then j.value else EmptyJournal
  }

  /** Crash-atomicity of `commit` at every byte and every durable write, through any number of
      interrupted recoveries: if the file or the state was cut before the marker's last byte, the
      recovery that completes gives the replica without the commit; from that byte on, with all of
      it. `k` is the stage that the rest of the disk had reached: none of it before the marker. */
  lemma CommitIsCrashAtomicInBytes(c: Codec, records: seq<Record>, r: Replica, e: Entry, m: nat, k: nat, ds: seq<Replica>)
    requires OnFile(c, records, r) && c.valid(e) && JournalPrepare(r.journal, e).Ok?
    requires m <= |Serialize(c, Appended(r.journal, e))|
    requires if m == |Serialize(c, Appended(r.journal, e))| then 2 <= k < |CommitStages(r, e)| else k == 0
    requires InterruptedRecoveries(ds) && ds[0] == CommitStages(r, e)[k].(journal := Loaded(c, CutFile(c, records, r, e, m)))
    ensures Load(c, CutFile(c, records, r, e, m)).Ok? && WellFormed(ds[|ds| - 1].journal)
    ensures var d := Reopen(ds[|ds| - 1]);
      if m == |Serialize(c, Appended(r.journal, e))| then d == CommitEntry(r, e)
      else d.collection == r.collection && d.appliedIndex == r.appliedIndex && d.journal.committed == r.journal.committed
  {
    CutFileIsAStage(c, records, r, e, m);
    var q := StageOf(r.journal, e, CompleteRecords(c, Appended(r.journal, e), m));
    MarkedStages(r, e);
    hide OnFile, Load, CutFile, Appended, CompleteRecords, Serialize, StageOf;
    assert Quiescent(r) by { FileIsQuiescent(c, records, r); }
    CommitIsCrashAtomic(r, e, if q >= 2 then k else q, ds);
  }

  lemma FileIsQuiescent(c: Codec, records: seq<Record>, r: Replica)
    requires OnFile(c, records, r)
    ensures Quiescent(r)
  {
  }

  /** From the marker on the journal no longer changes; before it nothing else does. */
  lemma MarkedStages(r: Replica, e: Entry)
    requires JournalPrepare(r.journal, e).Ok?
    ensures var stages := CommitStages(r, e);
      && stages[0] == r && stages[1] == r.(journal := stages[1].journal) && stages[2] == r.(journal := stages[2].journal)
      && forall k :: 2 <= k < |stages| ==> stages[k].journal == stages[2].journal
  {
  }

  /** A cut of the commit's appends is a cut of one longer journal. */
  lemma CutFileIsACut(c: Codec, records: seq<Record>, r: Replica, e: Entry, m: nat)
    requires OnFile(c, records, r) && c.valid(e) && JournalPrepare(r.journal, e).Ok?
    requires m <= |Serialize(c, Appended(r.journal, e))|
    ensures var all, n := records + Appended(r.journal, e), |Serialize(c, records)| + m;
      && (forall i :: 0 <= i < |all| ==> ValidRecord(c, all[i])) && ReplayFrom(EmptyJournal, all).Ok?
      && n <= |Serialize(c, all)| && CutFile(c, records, r, e, m) == Serialize(c, all)[..n]
  {
    var more := Appended(r.journal, e);
    assert forall i :: 0 <= i < |more| ==> ValidRecord(c, more[i]);
    SerializeConcat(c, records, more);
    AppendedReachStage(r, e, |more|);
    assert more[..|more|] == more;
    hide ReplayFrom, Appended, CommitStages;
    ReplayConcat(EmptyJournal, records, more);
  }

  /** Reopening a shard whose process died inside a commit, at any byte of its appends or after any
      later durable write: the shard is what it was without the commit, but for a prepared entry, or
      the commit is complete. */
  method RecoverInterruptedCommit(shard: ReplicaShard, ghost records: seq<Record>, ghost r: Replica, ghost e: Entry, ghost m: nat, ghost k: nat)
    requires OnFile(shard.journal.codec, records, r) && shard.journal.codec.valid(e) && JournalPrepare(r.journal, e).Ok?
    requires m <= |Serialize(shard.journal.codec, Appended(r.journal, e))|
    requires if m == |Serialize(shard.journal.codec, Appended(r.journal, e))| then 2 <= k < |CommitStages(r, e)| else k == 0
    requires shard.journal.file == CutFile(shard.journal.codec, records, r, e, m)
    requires shard.Disk() == CommitStages(r, e)[k].(journal := shard.journal.State())
    modifies shard, shard.journal
    ensures shard.Valid()
    ensures if m == |Serialize(shard.journal.codec, Appended(r.journal, e))| then shard.Disk() == CommitEntry(r, e)
      else shard.Disk() == CommitStages(r, e)[0] || shard.Disk() == CommitStages(r, e)[1]
  {
    ghost var c := shard.journal.codec;
    CutFileIsACut(c, records, r, e, m);
    CutFileIsAStage(c, records, r, e, m);
    MarkedStages(r, e);
    FileIsQuiescent(c, records, r);
    ghost var q := StageOf(r.journal, e, CompleteRecords(c, Appended(r.journal, e), m));
    RecoveredStage(r, e, if q >= 2 then k else q);
    EarlyStages(r, e);
    hide OnFile, Load, CutFile, Appended, CompleteRecords, Serialize, Reopen, CommitStages, ReplicaJournal.Valid, ReplayFrom;
    shard.Recover(records + Appended(r.journal, e), |Serialize(c, records)| + m);
  }

  lemma EarlyStages(r: Replica, e: Entry)
    requires Quiescent(r) && JournalPrepare(r.journal, e).Ok?
    ensures var stages := CommitStages(r, e);
      && WellFormed(stages[0].journal) && Reopen(stages[0]) == stages[0] && WellFormed(stages[1].journal) && Reopen(stages[1]) == stages[1]
  {
    ReopenQuiescent(CommitStages(r, e)[0]);
    ReopenQuiescent(CommitStages(r, e)[1]);
  }
}
