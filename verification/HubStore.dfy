/** The hub database: change_log and hub_entry (store.go). */
module HubStore {
  import opened Types
  import opened ChangeLog

  datatype ArchiveState = Null | Dirty | Archived | Unpinned

  datatype HubEntry = HubEntry(meta: Meta, version: nat, state: ArchiveState, fileId: FileId, sha1: Bytes,
                               uploadedAt: int)

  type Entries = map<Path, HubEntry>

  /** The value of the database between two transactions. */
  datatype Db = Db(log: Log, entries: Entries)

  const EMPTY: Db := Db([], map[])

  /** AUTOINCREMENT: one more than the greatest version handed out. */
  function NextVersion(log: Log): nat {
    if log == [] then 1 else Last(log).version + 1
  }

  /** The upserted row. A fresh row has no archive state. A row that was
      unpinned, or whose digest changes, becomes dirty; otherwise the archive
      columns are kept. */
  function Upsert(entries: Entries, e: ChangeEntry): HubEntry {
    if e.path !in entries then HubEntry(e.meta, e.version, Null, 0, [], 0)
    else
      var row := entries[e.path];
      var state :=
        if row.state.Unpinned? then Dirty
        else if row.meta.digest != e.meta.digest then Dirty
        else row.state;
      HubEntry(e.meta, e.version, state, row.fileId, row.sha1, row.uploadedAt)
  }

  function Stamp(db: Db, e: ChangeEntry): ChangeEntry {
    e.(version := NextVersion(db.log))
  }

  function AppendDb(db: Db, e: ChangeEntry): Db {
    var s := Stamp(db, e);
    Db(db.log + [s], if s.op.Delete? then db.entries - {s.path} else db.entries[s.path := Upsert(db.entries, s)])
  }

  function MarkState(db: Db, p: Path, state: ArchiveState): Db {
    if p in db.entries then db.(entries := db.entries[p := db.entries[p].(state := state)]) else db
  }

  function MarkArchivedDb(db: Db, p: Path, fileId: FileId, sha1: Bytes, uploadedAt: int): Db {
    if p in db.entries then
      db.(entries := db.entries[p := db.entries[p].(state := Archived, fileId := fileId, sha1 := sha1,
                                                    uploadedAt := uploadedAt)])
    else db
  }

  // ---- What every reachable database satisfies -------------------------------

  /** The scanner's columns of hub_entry. */
  function Columns(entries: Entries): Tree {
    map p | p in entries :: Row(entries[p].meta, entries[p].version)
  }

  ghost predicate Consistent(db: Db) {
    Dense(db.log) && Columns(db.entries) == Fold(db.log)
  }

  lemma ColumnsOfUpdate(entries: Entries, p: Path, h: HubEntry)
    ensures Columns(entries[p := h]) == Columns(entries)[p := Row(h.meta, h.version)]
  {}

  lemma ColumnsOfDelete(entries: Entries, p: Path)
    ensures Columns(entries - {p}) == Columns(entries) - {p}
  {}

  lemma AppendKeeps(db: Db, e: ChangeEntry)
    requires Consistent(db)
    ensures Consistent(AppendDb(db, e))
    ensures Last(AppendDb(db, e).log).version == |db.log| + 1
    ensures Columns(AppendDb(db, e).entries) == ApplyRecord(Columns(db.entries), Stamp(db, e))
  {
    var s := Stamp(db, e);
    ReplaySnoc(map[], db.log, s);
    if s.op.Delete? {
      ColumnsOfDelete(db.entries, s.path);
    } else {
      ColumnsOfUpdate(db.entries, s.path, Upsert(db.entries, s));
    }
  }

  lemma MarkKeeps(db: Db, p: Path, h: HubEntry)
    requires Consistent(db) && p in db.entries
    requires h.meta == db.entries[p].meta && h.version == db.entries[p].version
    ensures Consistent(db.(entries := db.entries[p := h]))
  {
    ColumnsOfUpdate(db.entries, p, h);
    assert Columns(db.entries)[p := Row(h.meta, h.version)] == Columns(db.entries);
  }

  /** One transaction of the store. */
  datatype StoreOp =
    | DoAppend(entry: ChangeEntry)
    | DoMarkArchived(path: Path, fileId: FileId, sha1: Bytes, uploadedAt: int)
    | DoMarkUnpinned(path: Path)
    | DoMarkDirty(path: Path)

  function StoreStep(db: Db, op: StoreOp): Db {
    match op
    case DoAppend(e) => AppendDb(db, e)
    case DoMarkArchived(p, fileId, sha1, at) => MarkArchivedDb(db, p, fileId, sha1, at)
    case DoMarkUnpinned(p) => MarkState(db, p, Unpinned)
    case DoMarkDirty(p) => MarkState(db, p, Dirty)
  }

  function StoreRun(db: Db, ops: seq<StoreOp>): Db
    decreases |ops|
  {
    if ops == [] then db else StoreRun(StoreStep(db, ops[0]), ops[1..])
  }

  lemma StoreStepKeeps(db: Db, op: StoreOp)
    requires Consistent(db)
    ensures Consistent(StoreStep(db, op))
  {
    match op
    case DoAppend(e) => AppendKeeps(db, e);
    case DoMarkArchived(p, fileId, sha1, at) =>
      if p in db.entries {
        MarkKeeps(db, p, StoreStep(db, op).entries[p]);
      }
    case DoMarkUnpinned(p) =>
      if p in db.entries {
        MarkKeeps(db, p, StoreStep(db, op).entries[p]);
      }
    case DoMarkDirty(p) =>
      if p in db.entries {
        MarkKeeps(db, p, StoreStep(db, op).entries[p]);
      }
  }

  lemma {:induction false} StoreRunKeeps(db: Db, ops: seq<StoreOp>)
    requires Consistent(db)
    ensures Consistent(StoreRun(db, ops))
    decreases |ops|
  {
    if ops != [] {
      StoreStepKeeps(db, ops[0]);
      StoreRunKeeps(StoreStep(db, ops[0]), ops[1..]);
    }
  }

  /** In every reachable database: the scanner's columns are the fold of the
      log, a path has a row exactly when its last record is not a delete, and a
      row's version is the greatest version among the path's non-delete records. */
  lemma ReachableRows(ops: seq<StoreOp>, p: Path)
    ensures var db := StoreRun(EMPTY, ops);
            && Columns(db.entries) == Fold(db.log)
            && (p in db.entries <==> LastFor(db.log, p).Some? && !LastFor(db.log, p).value.op.Delete?)
            && (p in db.entries ==> db.entries[p].version == MaxVersion(db.log, p))
  {
    assert Columns(EMPTY.entries) == map[];
    StoreRunKeeps(EMPTY, ops);
    var db := StoreRun(EMPTY, ops);
    RowFollowsLog(db, p);
  }

  lemma RowFollowsLog(db: Db, p: Path)
    requires Consistent(db)
    ensures p in db.entries <==> LastFor(db.log, p).Some? && !LastFor(db.log, p).value.op.Delete?
    ensures p in db.entries ==>
      && db.entries[p].version == MaxVersion(db.log, p)
      && db.entries[p].meta == LastFor(db.log, p).value.meta
  {
    ReplayAt(map[], db.log, p);
    assert p in db.entries <==> p in Columns(db.entries);
    if p in db.entries {
      LiveVersion(db.log, p);
      assert Columns(db.entries)[p] == Row(db.entries[p].meta, db.entries[p].version);
    }
  }

  // ---- The archive columns ------------------------------------------------------

  /** What an append does to the row it writes, and to no other: a new row is not
      archived; a row that was unpinned or gets another digest is dirty; all else
      stays. */
  lemma AppendWrites(db: Db, e: ChangeEntry)
    ensures var before, after := db.entries, AppendDb(db, e).entries;
            && (forall p :: p != e.path ==> (p in after <==> p in before) && (p in after ==> after[p] == before[p]))
            && (e.op.Delete? ==> e.path !in after)
            && (!e.op.Delete? ==>
                 && e.path in after && after[e.path].meta == e.meta && after[e.path].version == NextVersion(db.log)
                 && (e.path !in before ==> after[e.path].state.Null?)
                 && (e.path in before ==>
                      after[e.path].state
                      == if before[e.path].state.Unpinned? || before[e.path].meta.digest != e.meta.digest then Dirty
                         else before[e.path].state))
  {}

  /** The file id, SHA-1 and upload time a path's row was last stamped with since it was
      created, or none: read off the transactions alone, from the last one back. */
  function LastStamp(ops: seq<StoreOp>, p: Path): (FileId, Bytes, int) {
    if ops == [] then (0, [], 0)
    else
      match ops[|ops| - 1]
      case DoMarkArchived(q, fileId, sha1, at) =>
        if q == p && p in StoreRun(EMPTY, ops[..|ops| - 1]).entries then (fileId, sha1, at)
        else LastStamp(ops[..|ops| - 1], p)
      case DoAppend(e) => if e.path == p && e.op.Delete? then (0, [], 0) else LastStamp(ops[..|ops| - 1], p)
      case _ => LastStamp(ops[..|ops| - 1], p)
  }

  lemma {:induction false} StoreRunSnoc(db: Db, ops: seq<StoreOp>, op: StoreOp)
    ensures StoreRun(db, ops + [op]) == StoreStep(StoreRun(db, ops), op)
    decreases |ops|
  {
    if ops == [] {
      assert ops + [op] == [op] && [op][1..] == [];
    } else {
      assert (ops + [op])[1..] == ops[1..] + [op];
      StoreRunSnoc(StoreStep(db, ops[0]), ops[1..], op);
    }
  }

  /** After any transactions a row's archive columns are those of its last stamp; appends
      and state changes keep them. */
  lemma {:induction false} StampsLast(ops: seq<StoreOp>, p: Path)
    ensures var db := StoreRun(EMPTY, ops);
            && (p in db.entries ==>
                 (db.entries[p].fileId, db.entries[p].sha1, db.entries[p].uploadedAt) == LastStamp(ops, p))
            && (p !in db.entries ==> LastStamp(ops, p) == (0, [], 0))
  {
    if ops != [] {
      var front, last := ops[..|ops| - 1], ops[|ops| - 1];
      assert ops == front + [last];
      StampsLast(front, p);
      StoreRunSnoc(EMPTY, front, last);
    }
  }

  /** The transaction leaves a row of this digest archived, if it was. */
  predicate KeepsArchived(op: StoreOp, p: Path, digest: Digest) {
    match op
    case DoAppend(e) => e.path == p ==> !e.op.Delete? && e.meta.digest == digest
    case DoMarkArchived(_, _, _, _) => true
    case DoMarkUnpinned(q) => q != p
    case DoMarkDirty(q) => q != p
  }

  /** The k-th transaction stamps the path's row, which has this digest then, and none
      after it deletes it, unpins it, dirties it or gives it another digest. */
  ghost predicate StampsAt(ops: seq<StoreOp>, p: Path, digest: Digest, k: nat)
    requires k < |ops|
  {
    var before := StoreRun(EMPTY, ops[..k]).entries;
    && ops[k].DoMarkArchived? && ops[k].path == p && p in before && before[p].meta.digest == digest
    && forall i :: k < i < |ops| ==> KeepsArchived(ops[i], p, digest)
  }

  ghost predicate StampedSince(ops: seq<StoreOp>, p: Path, digest: Digest) {
    exists k :: 0 <= k < |ops| && StampsAt(ops, p, digest, k)
  }

  lemma StampedSnoc(front: seq<StoreOp>, last: StoreOp, p: Path, digest: Digest)
    ensures StampedSince(front + [last], p, digest) <==>
            || (StampedSince(front, p, digest) && KeepsArchived(last, p, digest))
            || (last.DoMarkArchived? && last.path == p && p in StoreRun(EMPTY, front).entries
                && StoreRun(EMPTY, front).entries[p].meta.digest == digest)
  {
    var ops, n := front + [last], |front|;
    assert ops[..n] == front && ops[n] == last;
    if StampedSince(ops, p, digest) {
      var k :| 0 <= k < |ops| && StampsAt(ops, p, digest, k);
      if k < n {
        assert ops[..k] == front[..k];
        assert StampsAt(front, p, digest, k);
      }
    }
    if StampedSince(front, p, digest) && KeepsArchived(last, p, digest) {
      var k :| 0 <= k < n && StampsAt(front, p, digest, k);
      assert ops[..k] == front[..k];
      assert StampsAt(ops, p, digest, k);
    }
    if last.DoMarkArchived? && last.path == p && p in StoreRun(EMPTY, front).entries
       && StoreRun(EMPTY, front).entries[p].meta.digest == digest {
      assert StampsAt(ops, p, digest, n);
    }
  }

  ghost predicate ArchivedWith(db: Db, p: Path, digest: Digest) {
    p in db.entries && db.entries[p].state.Archived? && db.entries[p].meta.digest == digest
  }

  lemma StepArchived(db: Db, op: StoreOp, p: Path, digest: Digest)
    ensures ArchivedWith(StoreStep(db, op), p, digest) <==>
            || (ArchivedWith(db, p, digest) && KeepsArchived(op, p, digest))
            || (op.DoMarkArchived? && op.path == p && p in db.entries && db.entries[p].meta.digest == digest)
  {}

  /** After any transactions a row is archived with some digest exactly if it was stamped
      when it had that digest, and has not been deleted, unpinned, made dirty or given
      another digest since. */
  lemma {:induction false} ArchivedExactly(ops: seq<StoreOp>, p: Path, digest: Digest)
    ensures ArchivedWith(StoreRun(EMPTY, ops), p, digest) <==> StampedSince(ops, p, digest)
  {
    if ops != [] {
      var front, last := ops[..|ops| - 1], ops[|ops| - 1];
      assert ops == front + [last];
      ArchivedExactly(front, p, digest);
      StoreRunSnoc(EMPTY, front, last);
      StampedSnoc(front, last, p, digest);
      StepArchived(StoreRun(EMPTY, front), last, p, digest);
    }
  }

  // ---- The store object ------------------------------------------------------

  class Store {
    var log: Log
    var entries: Entries

    ghost function Value(): Db
      reads this
    {
      Db(log, entries)
    }

    constructor ()
      ensures Value() == EMPTY
    {
      log, entries := [], map[];
    }

    /** Insert the log record and update the row in one transaction. */
    method Append(entry: ChangeEntry) returns (version: nat)
      modifies this
      ensures Value() == AppendDb(old(Value()), entry)
      ensures version == NextVersion(old(log)) == Last(log).version
    {
      version := NextVersion(log);
      var stamped := entry.(version := version);
      log := log + [stamped];
      if stamped.op.Delete? {
        entries := entries - {stamped.path};
      } else {
        entries := entries[stamped.path := Upsert(entries, stamped)];
      }
    }

    method MarkArchived(path: Path, fileId: FileId, sha1: Bytes, uploadedAt: int)
      modifies this
      ensures Value() == MarkArchivedDb(old(Value()), path, fileId, sha1, uploadedAt)
    {
      if path in entries {
        entries := entries[path := entries[path].(state := Archived, fileId := fileId, sha1 := sha1,
                                                  uploadedAt := uploadedAt)];
      }
    }

    method MarkUnpinned(path: Path)
      modifies this
      ensures Value() == MarkState(old(Value()), path, Unpinned)
    {
      if path in entries {
        entries := entries[path := entries[path].(state := Unpinned)];
      }
    }

    method MarkArchiveDirty(path: Path)
      modifies this
      ensures Value() == MarkState(old(Value()), path, Dirty)
    {
      if path in entries {
        entries := entries[path := entries[path].(state := Dirty)];
      }
    }

    method EntryLookup(path: Path) returns (found: Option<HubEntry>)
      ensures found == if path in entries then Some(entries[path]) else None
    {
      if path in entries {
        return Some(entries[path]);
      }
      return None;
    }

    /** The change_log rows above a version, in version order. */
    method ChangesSince(since: int) returns (changes: Log)
      ensures changes == Since(log, since)
      ensures Dense(log) ==> changes == log[Clamp(since, |log|)..]
    {
      changes := [];
      for i := 0 to |log|
        invariant changes == Since(log[..i], since)
      {
        assert Front(log[..i + 1]) == log[..i];
        if log[i].version > since {
          changes := changes + [log[i]];
        }
      }
      assert log[..|log|] == log;
      if Dense(log) {
        SinceIsSuffix(log, since);
      }
    }

    method LatestVersion() returns (v: nat)
      ensures log == [] ==> v == 0
      ensures Dense(log) ==> v == |log|
    {
      v := 0;
      for i := 0 to |log|
        invariant i == 0 ==> v == 0
        invariant Dense(log) ==> v == i
      {
        v := Max(v, log[i].version);
      }
    }

    /** The whole tree, unpinned rows included. */
    method TreeSnapshot() returns (tree: map<Path, Meta>)
      ensures tree == map p | p in entries :: entries[p].meta
    {
      tree := map[];
      var todo := entries.Keys;
      while todo != {}
        invariant todo <= entries.Keys
        invariant tree == map p | p in entries && p !in todo :: entries[p].meta
        decreases todo
      {
        var p :| p in todo;
        tree := tree[p := entries[p].meta];
        todo := todo - {p};
      }
    }

    /** The tree the scanner diffs against: rows that are not unpinned. */
    method ScanBaselineSnapshot() returns (tree: map<Path, Meta>)
      ensures tree == Baseline(Value())
    {
      tree := map[];
      var todo := entries.Keys;
      while todo != {}
        invariant todo <= entries.Keys
        invariant tree == map p | p in entries && p !in todo && !entries[p].state.Unpinned? :: entries[p].meta
        decreases todo
      {
        var p :| p in todo;
        if !entries[p].state.Unpinned? {
          tree := tree[p := entries[p].meta];
        }
        todo := todo - {p};
      }
    }
  }

  function Baseline(db: Db): map<Path, Meta> {
    map p | p in db.entries && !db.entries[p].state.Unpinned? :: db.entries[p].meta
  }
}
