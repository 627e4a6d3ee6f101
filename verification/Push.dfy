/** Pushes with optimistic concurrency, and the hub that serves them (push.go, hub.go). */
module Push {
  import opened Types
  import opened ChangeLog
  import opened HubStore
  import opened Scanning
  import opened Places
  import opened Sync

  datatype OpKind = OpCreate | OpUpdate | OpDelete | OpUnknown(code: int)

  datatype Policy = FAIL | CLIENT_WINS | HUB_WINS | UNKNOWN_POLICY(code: int)

  datatype PushOp = PushOp(path: Path, kind: OpKind, baseVersion: nat, data: Bytes)

  datatype Reason =
    | FileAlreadyExists | FileNotFound | VersionConflict | HubWins | VersionConflictOnDelete | UnknownOp
    | MkdirFailed | WriteFailed

  datatype Outcome = Accepted(version: nat) | Conflict(reason: Reason, currentVersion: nat, currentDigest: Digest)

  datatype PushResult = PushResult(path: Path, outcome: Outcome)

  /** What the clock said and what the filesystem stamped. */
  datatype Times = Times(row: int, disk: int)

  datatype HubState = HubState(db: Db, files: Disk, dirs: set<Path>)

  // ---- The protocol on values --------------------------------------------------

  function Mode(files: Disk, p: Path): int {
    if p in files then files[p].mode else 0x1A4
  }

  function WriteEntry(op: PushOp, changeOp: Op, t: Times, hash: Hasher): ChangeEntry {
    ChangeEntry(0, op.path, changeOp, Meta(File, hash(op.data), |op.data|, 0x1A4, t.row))
  }

  function DeleteEntry(op: PushOp, t: Times): ChangeEntry {
    ChangeEntry(0, op.path, Delete, Meta(File, [], 0, 0, t.row))
  }

  /** Make the directories, write the bytes, then the record; refused where a file
      or a directory is in the way. */
  function AcceptWrite(h: HubState, op: PushOp, changeOp: Op, t: Times, hash: Hasher): (HubState, PushResult) {
    var p := op.path;
    if FileAbove(h.files, p) then (h, PushResult(p, Conflict(MkdirFailed, 0, [])))
    else if p in Directories(h.files, h.dirs) then (h, PushResult(p, Conflict(WriteFailed, 0, [])))
    else
      (HubState(AppendDb(h.db, WriteEntry(op, changeOp, t, hash)),
                h.files[p := FileStat(op.data, Mode(h.files, p), t.disk)], Made(h.files, h.dirs, p)),
       PushResult(p, Accepted(NextVersion(h.db.log))))
  }

  function AcceptDelete(h: HubState, op: PushOp, t: Times): (HubState, PushResult) {
    var (files, dirs) := Unlinked(h.files, h.dirs, op.path);
    (HubState(AppendDb(h.db, DeleteEntry(op, t)), files, dirs), PushResult(op.path, Accepted(NextVersion(h.db.log))))
  }

  function Refuse(h: HubState, p: Path, reason: Reason): (HubState, PushResult) {
    var digest := if p in h.db.entries then h.db.entries[p].meta.digest else [];
    var version := if p in h.db.entries then MaxVersion(h.db.log, p) else 0;
    (h, PushResult(p, Conflict(reason, version, digest)))
  }

  function PushOne(h: HubState, op: PushOp, policy: Policy, t: Times, hash: Hasher): (HubState, PushResult) {
    var p := op.path;
    var exists_ := p in h.db.entries;
    var current := MaxVersion(h.db.log, p);
    match op.kind
    case OpCreate =>
      if !exists_ then AcceptWrite(h, op, Create, t, hash)
      else if policy == CLIENT_WINS then AcceptWrite(h, op, Update, t, hash)
      else Refuse(h, p, FileAlreadyExists)
    case OpUpdate =>
      if !exists_ then Refuse(h, p, FileNotFound)
      else if current == op.baseVersion || policy == CLIENT_WINS then AcceptWrite(h, op, Update, t, hash)
      else if policy == HUB_WINS then Refuse(h, p, HubWins)
      else Refuse(h, p, VersionConflict)
    case OpDelete =>
      if !exists_ then (h, PushResult(p, Accepted(0)))
      else if current != op.baseVersion && policy == FAIL then Refuse(h, p, VersionConflictOnDelete)
      else AcceptDelete(h, op, t)
    case OpUnknown(_) =>
      (h, PushResult(p, Conflict(UnknownOp, 0, [])))
  }

  type Clock = nat -> Times

  function PushAll(h: HubState, ops: seq<PushOp>, policy: Policy, clock: Clock, hash: Hasher): (HubState,
      seq<PushResult>) {
    if ops == [] then (h, [])
    else
      var (before, results) := PushAll(h, Front(ops), policy, clock, hash);
      var (after, result) := PushOne(before, Last(ops), policy, clock(|ops| - 1), hash);
      (after, results + [result])
  }

  // ---- Histories -------------------------------------------------------------------

  /** One serialized request: a push, or a full scan reporting some changes. */
  datatype Event =
    | PushEvent(op: PushOp, policy: Policy, times: Times)
    | ScanEvent(changes: seq<ChangeEntry>)
    | DiskEvent(files: Disk, dirs: set<Path>)

  function HubNext(h: HubState, ev: Event, hash: Hasher): HubState {
    match ev
    case PushEvent(op, policy, times) => PushOne(h, op, policy, times, hash).0
    case ScanEvent(changes) => h.(db := AppendAll(h.db, changes))
    case DiskEvent(files, dirs) => h.(files := files, dirs := dirs)
  }

  function HubRun(h: HubState, events: seq<Event>, hash: Hasher): HubState
    decreases |events|
  {
    if events == [] then h else HubRun(HubNext(h, events[0], hash), events[1..], hash)
  }

  lemma PushKeeps(h: HubState, op: PushOp, policy: Policy, t: Times, hash: Hasher)
    requires Consistent(h.db)
    ensures Consistent(PushOne(h, op, policy, t, hash).0.db)
  {
    AppendKeeps(h.db, WriteEntry(op, Create, t, hash));
    AppendKeeps(h.db, WriteEntry(op, Update, t, hash));
    AppendKeeps(h.db, DeleteEntry(op, t));
  }

  lemma {:induction false} HistoryKeeps(h: HubState, events: seq<Event>, hash: Hasher)
    requires Consistent(h.db)
    ensures Consistent(HubRun(h, events, hash).db)
    decreases |events|
  {
    if events != [] {
      match events[0] {
        case PushEvent(op, policy, times) => PushKeeps(h, op, policy, times, hash);
        case ScanEvent(changes) => AppendAllKeeps(h.db, changes);
        case DiskEvent(_, _) =>
      }
      HistoryKeeps(HubNext(h, events[0], hash), events[1..], hash);
    }
  }

  const FRESH_HUB: HubState := HubState(EMPTY, map[], {})

  lemma Reachable(events: seq<Event>, hash: Hasher)
    ensures Consistent(HubRun(FRESH_HUB, events, hash).db)
  {
    assert Columns(EMPTY.entries) == map[];
    HistoryKeeps(FRESH_HUB, events, hash);
  }

  // ---- Conflict safety ----------------------------------------------------------------

  /** The path's last record is not a delete, and is the record of version b. */
  ghost predicate StandsAt(log: Log, p: Path, b: nat) {
    LastFor(log, p).Some? && !LastFor(log, p).value.op.Delete? && LastFor(log, p).value.version == b
  }

  ghost predicate NoLiveRecord(log: Log, p: Path) {
    LastFor(log, p).None? || LastFor(log, p).value.op.Delete?
  }

  lemma {:induction false} LastForVersion(log: Log, p: Path)
    requires Dense(log) && LastFor(log, p).Some?
    ensures var v := LastFor(log, p).value.version;
            0 < v <= |log| && log[v - 1] == LastFor(log, p).value && log[v - 1].path == p
              && forall j :: v <= j < |log| ==> log[j].path != p
  {
    LastForIn(log, p);
    var i :| 0 <= i < |log| && log[i] == LastFor(log, p).value && log[i].path == p
      && forall j :: i < j < |log| ==> log[j].path != p;
    assert log[i].version == i + 1;
  }

  lemma LiveMeansStands(db: Db, p: Path)
    requires Consistent(db)
    ensures p !in db.entries <==> NoLiveRecord(db.log, p)
    ensures p in db.entries ==> StandsAt(db.log, p, MaxVersion(db.log, p))
  {
    RowFollowsLog(db, p);
    if p in db.entries {
      LiveVersion(db.log, p);
      LastForVersion(db.log, p);
      var v := LastFor(db.log, p).value.version;
      assert db.entries[p].version == MaxVersion(db.log, p);
      ReplayAt(map[], db.log, p);
      assert Columns(db.entries)[p] == Row(db.entries[p].meta, db.entries[p].version);
    }
  }

  /** After any history, under FAIL: an update is accepted exactly when the record
      of its base version is the path's last record and no delete, and the path can
      be written on the hub's disk; a delete exactly when that record stands or the
      path has no live record; a create exactly when it has none and the path can
      be written. */
  lemma FailAcceptsExactly(events: seq<Event>, op: PushOp, t: Times, hash: Hasher)
    ensures var h := HubRun(FRESH_HUB, events, hash);
            var p := op.path;
            PushOne(h, op, FAIL, t, hash).1.outcome.Accepted? <==>
              match op.kind
              case OpCreate => NoLiveRecord(h.db.log, p) && Free(h.files, h.dirs, p)
              case OpUpdate => StandsAt(h.db.log, p, op.baseVersion) && Free(h.files, h.dirs, p)
              case OpDelete => NoLiveRecord(h.db.log, p) || StandsAt(h.db.log, p, op.baseVersion)
              case OpUnknown(_) => false
  {
    Reachable(events, hash);
    LiveMeansStands(HubRun(FRESH_HUB, events, hash).db, op.path);
  }

  /** An accepted update or delete of a live path has base version the row's, and
      appends one record. */
  lemma AcceptedAppends(h: HubState, op: PushOp, t: Times, hash: Hasher)
    requires Dense(h.db.log) && (op.kind.OpUpdate? || op.kind.OpDelete?)
    requires var r := PushOne(h, op, FAIL, t, hash); r.1.outcome.Accepted? && r.1.outcome.version != 0
    ensures var r := PushOne(h, op, FAIL, t, hash);
            var log' := r.0.db.log;
            && op.path in h.db.entries && op.baseVersion == MaxVersion(h.db.log, op.path)
            && r.1.outcome.version == |h.db.log| + 1 == |log'| && log'[..|h.db.log|] == h.db.log
            && Last(log').path == op.path && (op.kind.OpDelete? <==> Last(log').op.Delete?)
  {}

  /** An update or delete accepted under FAIL with base b is logged at a version v
      above b, as the next record of its path: nothing about the path lies
      strictly between, and b's own record was a live one. */
  lemma FailIsUncontended(events: seq<Event>, op: PushOp, t: Times, hash: Hasher)
    requires op.kind.OpUpdate? || op.kind.OpDelete?
    requires var h := HubRun(FRESH_HUB, events, hash);
             var r := PushOne(h, op, FAIL, t, hash);
             r.1.outcome.Accepted? && r.1.outcome.version != 0
    ensures var h := HubRun(FRESH_HUB, events, hash);
            var r := PushOne(h, op, FAIL, t, hash);
            var log', b, v := r.0.db.log, op.baseVersion, r.1.outcome.version;
            && 0 < b < v == |log'|
            && log'[b - 1].path == op.path && !log'[b - 1].op.Delete?
            && log'[v - 1].path == op.path
            && (op.kind.OpDelete? <==> log'[v - 1].op.Delete?)
            && forall i :: b <= i < v - 1 ==> log'[i].path != op.path
  {
    Reachable(events, hash);
    var h := HubRun(FRESH_HUB, events, hash);
    LiveMeansStands(h.db, op.path);
    LastForVersion(h.db.log, op.path);
    AcceptedAppends(h, op, t, hash);
    var log' := PushOne(h, op, FAIL, t, hash).0.db.log;
    forall i | 0 <= i < |h.db.log| ensures log'[i] == h.db.log[i] {
      assert log'[i] == log'[..|h.db.log|][i];
    }
  }

  // ---- What an accepted op leaves ---------------------------------------------------------

  /** What a record of an accepted op says. */
  ghost predicate RecordsOp(e: ChangeEntry, live: bool, op: PushOp, t: Times, hash: Hasher) {
    && e.path == op.path
    && (e.op.Delete? <==> op.kind.OpDelete?) && (e.op.Create? <==> !op.kind.OpDelete? && !live)
    && e.meta.kind.File? && e.meta.mtime == t.row
    && (if op.kind.OpDelete? then e.meta.digest == [] && e.meta.size == 0 && e.meta.mode == 0
        else e.meta.digest == hash(op.data) && e.meta.size == |op.data| && e.meta.mode == 0x1A4)
  }

  /** What the answer and the log say of an accepted op that was logged. */
  ghost predicate LoggedAs(log: Log, log': Log, version: nat, live: bool, op: PushOp, t: Times, hash: Hasher) {
    && |log'| == |log| + 1 && log'[..|log|] == log && version == |log'| == Last(log').version
    && RecordsOp(Last(log'), live, op, t, hash)
  }

  lemma WriteIsLogged(h: HubState, op: PushOp, policy: Policy, t: Times, hash: Hasher)
    requires Dense(h.db.log) && !op.kind.OpDelete? && PushOne(h, op, policy, t, hash).1.outcome.Accepted?
    ensures var (h', r) := PushOne(h, op, policy, t, hash);
            LoggedAs(h.db.log, h'.db.log, r.outcome.version, op.path in h.db.entries, op, t, hash)
  {}

  lemma DeleteIsLogged(h: HubState, op: PushOp, policy: Policy, t: Times, hash: Hasher)
    requires Dense(h.db.log) && op.kind.OpDelete? && PushOne(h, op, policy, t, hash).1.outcome.Accepted?
    ensures var (h', r) := PushOne(h, op, policy, t, hash);
            if op.path !in h.db.entries then h' == h && r.outcome.version == 0
            else LoggedAs(h.db.log, h'.db.log, r.outcome.version, true, op, t, hash)
  {}

  /** Under every policy, an accepted op either was a delete of a path without a row,
      answered with version 0, and changed nothing; or the log gained one record, the
      answer is that record's version, and the record says what the op did. */
  lemma AcceptedIsLogged(h: HubState, op: PushOp, policy: Policy, t: Times, hash: Hasher)
    requires Dense(h.db.log) && PushOne(h, op, policy, t, hash).1.outcome.Accepted?
    ensures var (h', r) := PushOne(h, op, policy, t, hash);
            var log', live := h'.db.log, op.path in h.db.entries;
            && r.path == op.path
            && if op.kind.OpDelete? && !live then h' == h && r.outcome.version == 0
               else LoggedAs(h.db.log, log', r.outcome.version, live, op, t, hash)
  {
    if op.kind.OpDelete? {
      DeleteIsLogged(h, op, policy, t, hash);
    } else {
      WriteIsLogged(h, op, policy, t, hash);
    }
  }

  /** And its row and its file: the pushed bytes at the answered version, with the
      permissions the file had; or neither row nor file. */
  lemma AcceptedIsStored(h: HubState, op: PushOp, policy: Policy, t: Times, hash: Hasher)
    requires Dense(h.db.log) && PushOne(h, op, policy, t, hash).1.outcome.Accepted?
    ensures var (h', r) := PushOne(h, op, policy, t, hash);
            var p := op.path;
            if op.kind.OpDelete? then p !in h'.db.entries && (p in h.db.entries ==> p !in h'.files)
            else && p in h'.db.entries && h'.db.entries[p].version == r.outcome.version
                 && h'.db.entries[p].meta.digest == hash(op.data)
                 && p in h'.files && h'.files[p].content == op.data && h'.files[p].mtime == t.disk
                 && h'.files[p].mode == if p in h.files then h.files[p].mode else 0x1A4
  {}

  /** Why an op is refused. */
  lemma RefusedBecause(h: HubState, op: PushOp, policy: Policy, t: Times, hash: Hasher)
    requires Consistent(h.db) && PushOne(h, op, policy, t, hash).1.outcome.Conflict?
    ensures var live := op.path in h.db.entries;
            var stale := live && h.db.entries[op.path].version != op.baseVersion;
            match PushOne(h, op, policy, t, hash).1.outcome.reason
            case UnknownOp => op.kind.OpUnknown?
            case FileNotFound => op.kind.OpUpdate? && !live
            case FileAlreadyExists => op.kind.OpCreate? && live && policy != CLIENT_WINS
            case HubWins => op.kind.OpUpdate? && stale && policy == HUB_WINS
            case VersionConflict => op.kind.OpUpdate? && stale && policy != HUB_WINS && policy != CLIENT_WINS
            case VersionConflictOnDelete => op.kind.OpDelete? && stale && policy == FAIL
            case MkdirFailed => FileAbove(h.files, op.path)
            case WriteFailed => !FileAbove(h.files, op.path) && op.path in Directories(h.files, h.dirs)
  {
    RowFollowsLog(h.db, op.path);
  }

  /** The answers of a whole request name records: the accepted op's own, in order. */
  ghost predicate NamesRecords(log: Log, log': Log, ops: seq<PushOp>, results: seq<PushResult>) {
    && |results| == |ops|
    && (forall i :: 0 <= i < |ops| ==> NamesRecord(log, log', ops[i], results[i]))
    && (forall i, j :: 0 <= i < j < |ops| && Logged(results[i]) && Logged(results[j]) ==>
        results[i].outcome.version < results[j].outcome.version)
  }

  ghost predicate Logged(r: PushResult) {
    r.outcome.Accepted? && r.outcome.version != 0
  }

  ghost predicate NamesRecord(log: Log, log': Log, op: PushOp, r: PushResult) {
    Logged(r) ==> |log| < r.outcome.version <= |log'| && log'[r.outcome.version - 1].path == op.path
  }

  lemma {:induction false} AnswersNameRecords(h: HubState, ops: seq<PushOp>, policy: Policy, clock: Clock, hash: Hasher)
    requires Consistent(h.db)
    ensures var (h', results) := PushAll(h, ops, policy, clock, hash);
            && Consistent(h'.db) && h.db.log <= h'.db.log && NamesRecords(h.db.log, h'.db.log, ops, results)
  {
    if ops != [] {
      AnswersNameRecords(h, Front(ops), policy, clock, hash);
      var (before, results) := PushAll(h, Front(ops), policy, clock, hash);
      var t := clock(|ops| - 1);
      PushKeeps(before, Last(ops), policy, t, hash);
      var (after, r) := PushOne(before, Last(ops), policy, t, hash);
      if r.outcome.Accepted? {
        AcceptedIsLogged(before, Last(ops), policy, t, hash);
      } else {
        RefusedChangesNothing(before, Last(ops), policy, t, hash);
      }
      OneMoreNamed(h.db.log, before.db.log, after.db.log, ops, results, r);
    }
  }

  lemma RefusedChangesNothing(h: HubState, op: PushOp, policy: Policy, t: Times, hash: Hasher)
    requires PushOne(h, op, policy, t, hash).1.outcome.Conflict?
    ensures PushOne(h, op, policy, t, hash).0 == h
  {}

  lemma OneMoreNamed(log: Log, middle: Log, log': Log, ops: seq<PushOp>, results: seq<PushResult>, r: PushResult)
    requires ops != [] && log <= middle <= log' && NamesRecords(log, middle, Front(ops), results)
    requires Logged(r) ==> r.outcome.version == |log'| == |middle| + 1 && Last(log').path == Last(ops).path
    ensures NamesRecords(log, log', ops, results + [r])
  {
    var results' := results + [r];
    forall i | 0 <= i < |ops| ensures NamesRecord(log, log', ops[i], results'[i]) {
      if i < |results| {
        assert NamesRecord(log, middle, Front(ops)[i], results[i]);
      }
    }
    forall i, j | 0 <= i < j < |ops| && Logged(results'[i]) && Logged(results'[j])
      ensures results'[i].outcome.version < results'[j].outcome.version
    {
      assert NamesRecord(log, middle, Front(ops)[i], results[i]);
    }
  }

  // ---- Refusals ----------------------------------------------------------------------------

  /** A refused op changes neither the log, nor the tree, nor the disk, and
      reports the version and digest of the row that stands, unless the disk is
      why it was refused. */
  lemma ConflictChangesNothing(events: seq<Event>, op: PushOp, policy: Policy, t: Times, hash: Hasher)
    ensures var h := HubRun(FRESH_HUB, events, hash);
            var r := PushOne(h, op, policy, t, hash);
            r.1.outcome.Conflict? ==> r.0 == h && ReportsRow(h, op, r.1.outcome)
  {
    Reachable(events, hash);
    RowFollowsLog(HubRun(FRESH_HUB, events, hash).db, op.path);
    RefusalReports(HubRun(FRESH_HUB, events, hash), op, policy, t, hash);
  }

  ghost predicate ReportsRow(h: HubState, op: PushOp, outcome: Outcome)
    requires outcome.Conflict?
  {
    if outcome.reason.MkdirFailed? || outcome.reason.WriteFailed? then !Free(h.files, h.dirs, op.path)
    else !op.kind.OpUnknown? && op.path in h.db.entries ==>
      && outcome.currentVersion == h.db.entries[op.path].version
      && outcome.currentDigest == h.db.entries[op.path].meta.digest
  }

  lemma RefusalReports(h: HubState, op: PushOp, policy: Policy, t: Times, hash: Hasher)
    requires op.path in h.db.entries ==> h.db.entries[op.path].version == MaxVersion(h.db.log, op.path)
    ensures var r := PushOne(h, op, policy, t, hash);
            r.1.outcome.Conflict? ==> r.0 == h && ReportsRow(h, op, r.1.outcome)
  {}

  /** A push that deletes a file leaves the directory it lay in, and no push can
      then put a file in that directory's place. */
  lemma DeleteLeavesDirectory(h: HubState, op: PushOp, policy: Policy, t: Times, op': PushOp, policy': Policy,
                              t': Times,
                              hash: Hasher)
    requires op.kind.OpDelete? && op.path in h.files && Below(op.path, op'.path)
    requires (op'.kind.OpCreate? || op'.kind.OpUpdate?)
    ensures var h' := PushOne(h, op, policy, t, hash).0;
            PushOne(h', op', policy', t', hash).0 == h' && PushOne(h', op', policy', t', hash).1.outcome.Conflict?
  {
    UnlinkLeavesDirectory(h.files, h.dirs, op.path, op'.path);
    assert op'.path in Above(op.path);
  }

  /** When exactly a stale base gets through on a live path: updates only when the
      client asks to win and the path can be written; deletes under every policy
      but FAIL, HUB_WINS included. */
  lemma StaleAcceptedExactly(events: seq<Event>, op: PushOp, policy: Policy, t: Times, hash: Hasher)
    requires var h := HubRun(FRESH_HUB, events, hash);
             && op.path in h.db.entries && !StandsAt(h.db.log, op.path, op.baseVersion)
    ensures var h := HubRun(FRESH_HUB, events, hash);
            PushOne(h, op, policy, t, hash).1.outcome.Accepted? <==>
              || ((op.kind.OpUpdate? || op.kind.OpCreate?) && policy == CLIENT_WINS && Free(h.files, h.dirs, op.path))
              || (op.kind.OpDelete? && policy != FAIL)
  {
    Reachable(events, hash);
    LiveMeansStands(HubRun(FRESH_HUB, events, hash).db, op.path);
  }

  // ---- No lost updates -------------------------------------------------------------------

  lemma {:induction false} LogGrows(h: HubState, events: seq<Event>, hash: Hasher)
    ensures var log, log' := h.db.log, HubRun(h, events, hash).db.log; log <= log'
    decreases |events|
  {
    if events != [] {
      if events[0].ScanEvent? {
        AppendAllGrows(h.db, events[0].changes);
      }
      LogGrows(HubNext(h, events[0], hash), events[1..], hash);
    }
  }

  lemma {:induction false} AppendAllGrows(db: Db, changes: seq<ChangeEntry>)
    ensures db.log <= AppendAll(db, changes).log
    decreases |changes|
  {
    if changes != [] {
      AppendAllGrows(AppendDb(db, changes[0]), changes[1..]);
    }
  }

  /** Two writers cannot both win from one base: once a record follows version b
      for a path, no later update or live delete with base b is accepted under
      FAIL, however the history goes on. */
  lemma NoTwoWinners(h: HubState, later: seq<Event>, op: PushOp, v: nat, t: Times, hash: Hasher)
    requires Consistent(h.db)
    requires op.kind.OpUpdate? || op.kind.OpDelete?
    requires op.baseVersion < v <= |h.db.log| && h.db.log[v - 1].path == op.path
    ensures var h' := HubRun(h, later, hash);
            var r := PushOne(h', op, FAIL, t, hash);
            r.1.outcome.Conflict? || (r.0 == h' && op.path !in h'.db.entries)
  {
    HistoryKeeps(h, later, hash);
    LogGrows(h, later, hash);
    var h' := HubRun(h, later, hash);
    assert h'.db.log[v - 1] == h.db.log[v - 1];
    LiveMeansStands(h'.db, op.path);
    if op.path in h'.db.entries {
      LastForVersion(h'.db.log, op.path);
    }
  }

  // ---- Pushes and scans ---------------------------------------------------------------------

  /** The path's file and row are in step: no scan reports anything about it. */
  ghost predicate Settled(h: HubState, p: Path, hash: Hasher) {
    var scanned, tree := Scanned(h.files, Baseline(h.db), hash), Baseline(h.db);
    p !in Wanted(scanned, tree) && p !in Gone(scanned, tree)
  }

  /** An accepted op leaves at its path a file and a row of its digest that is not
      unpinned; or, for a delete, no row, and no file there was a row for. */
  lemma AcceptedLeaves(h: HubState, op: PushOp, policy: Policy, t: Times, hash: Hasher)
    requires PushOne(h, op, policy, t, hash).1.outcome.Accepted?
    ensures var h', p := PushOne(h, op, policy, t, hash).0, op.path;
            if op.kind.OpDelete? then if p in h.db.entries then p !in h'.files && p !in h'.db.entries else h' == h
            else && p in h'.files && p in h'.db.entries && !h'.db.entries[p].state.Unpinned?
                 && h'.files[p].content == op.data && h'.db.entries[p].meta.digest == hash(op.data)
  {}

  lemma OwnPathSettled(h: HubState, op: PushOp, policy: Policy, t: Times, hash: Hasher)
    requires PushOne(h, op, policy, t, hash).1.outcome.Accepted?
    requires op.path !in h.db.entries && op.kind.OpDelete? ==> Settled(h, op.path, hash)
    ensures Settled(PushOne(h, op, policy, t, hash).0, op.path, hash)
  {
    AcceptedLeaves(h, op, policy, t, hash);
  }

  /** Row and file of p are the same. */
  ghost predicate SameFor(h: HubState, h': HubState, p: Path) {
    SameRow(h'.db.entries, h.db.entries, p) && (p in h'.files <==> p in h.files)
      && (p in h.files ==> h'.files[p] == h.files[p])
  }

  lemma PushSparesOthers(h: HubState, op: PushOp, policy: Policy, t: Times, hash: Hasher, p: Path)
    requires p != op.path
    ensures SameFor(h, PushOne(h, op, policy, t, hash).0, p)
  {}

  lemma OtherPathSettled(h: HubState, h': HubState, hash: Hasher, p: Path)
    requires SameFor(h, h', p) && Settled(h, p, hash)
    ensures Settled(h', p, hash)
  {}

  /** The scanner does not report an accepted push back as a change, whatever the
      two clocks said; nor does a push unsettle any other path. */
  lemma PushIsSettled(h: HubState, op: PushOp, policy: Policy, t: Times, hash: Hasher, p: Path)
    requires p == op.path ==> PushOne(h, op, policy, t, hash).1.outcome.Accepted?
    requires p == op.path && op.path !in h.db.entries && op.kind.OpDelete? ==> Settled(h, p, hash)
    requires p != op.path ==> Settled(h, p, hash)
    ensures Settled(PushOne(h, op, policy, t, hash).0, p, hash)
  {
    if p == op.path {
      OwnPathSettled(h, op, policy, t, hash);
    } else {
      PushSparesOthers(h, op, policy, t, hash, p);
      OtherPathSettled(h, PushOne(h, op, policy, t, hash).0, hash, p);
    }
  }

  // ---- The hub object ---------------------------------------------------------------------------

  /** Offering a stretch of log to a channel. */
  function OfferLog(queue: Log, records: Log): Log {
    if records == [] then queue else Offer(OfferLog(queue, Front(records)), Last(records))
  }

  lemma {:induction false} OfferLogConcat(queue: Log, a: Log, b: Log)
    ensures OfferLog(queue, a + b) == OfferLog(OfferLog(queue, a), b)
  {
    if b == [] {
      assert a + b == a;
    } else {
      OfferLogConcat(queue, a, Front(b));
      assert Front(a + b) == a + Front(b) && Last(a + b) == Last(b);
    }
  }

  class Hub {
    const store: Store
    const dir: Directory
    const bc: Broadcaster
    const hash: Hasher

    constructor (store: Store, dir: Directory, bc: Broadcaster, hash: Hasher)
      ensures this.store == store && this.dir == dir && this.bc == bc && this.hash == hash
    {
      this.store, this.dir, this.bc, this.hash := store, dir, bc, hash;
    }

    ghost function Value(): HubState
      reads store, dir
    {
      HubState(store.Value(), dir.files, dir.dirs)
    }

    /** Append one entry and announce it. */
    method Publish(entry: ChangeEntry) returns (version: nat)
      modifies store, bc.subs
      ensures store.Value() == AppendDb(old(store.Value()), entry)
      ensures version == NextVersion(old(store.log))
      ensures bc.subs == old(bc.subs)
      ensures forall ch :: ch in bc.subs ==> ch.queue == Offer(old(ch.queue), Last(store.log))
    {
      version := store.Append(entry);
      bc.Broadcast(entry.(version := version));
    }

    method VersionForEntry(path: Path) returns (version: nat)
      ensures version == MaxVersion(store.log, path)
    {
      version := 0;
      for i := 0 to |store.log|
        invariant version == MaxVersion(store.log[..i], path)
      {
        assert Front(store.log[..i + 1]) == store.log[..i];
        if store.log[i].path == path && !store.log[i].op.Delete? {
          version := Max(store.log[i].version, version);
        }
      }
      assert store.log[..|store.log|] == store.log;
    }

    /** Every channel was offered exactly what the log gained. */
    twostate predicate Announced()
      reads store, bc, bc.subs
    {
      && bc.subs == old(bc.subs)
      && old(store.log) <= store.log
      && forall ch :: ch in bc.subs ==> ch.queue == OfferLog(old(ch.queue), store.log[|old(store.log)|..])
    }

    twostate lemma AnnouncedOne()
      requires bc.subs == old(bc.subs) && |store.log| == |old(store.log)| + 1 && old(store.log) <= store.log
      requires forall ch :: ch in bc.subs ==> ch.queue == Offer(old(ch.queue), Last(store.log))
      ensures Announced()
    {
      var tail := store.log[|old(store.log)|..];
      assert tail == [Last(store.log)] && Front(tail) == [];
    }

    /** Publish a report entry by entry. */
    method PublishAll(changes: seq<ChangeEntry>)
      modifies store, bc.subs
      ensures store.Value() == AppendAll(old(store.Value()), changes)
      ensures Announced()
    {
      ghost var n, before := |store.log|, store.Value();
      for i := 0 to |changes|
        invariant bc.subs == old(bc.subs)
        invariant store.Value() == AppendAll(before, changes[..i])
        invariant |store.log| >= n && store.log[..n] == before.log
        invariant forall ch :: ch in bc.subs ==> ch.queue == OfferLog(old(ch.queue), store.log[n..])
      {
        ghost var log := store.log;
        var version := Publish(changes[i]);
        AppendAllSnoc(before, changes[..i], changes[i]);
        assert changes[..i + 1] == changes[..i] + [changes[i]];
        assert Front(store.log[n..]) == log[n..];
      }
      assert changes[..|changes|] == changes;
    }

    /** Scan the directory and publish every difference from the tree. */
    method FullScan() returns (changes: seq<ChangeEntry>)
      modifies store, bc.subs
      ensures IsDiff(changes, Scanned(dir.files, Baseline(old(store.Value())), hash), Baseline(old(store.Value())))
      ensures store.Value() == AppendAll(old(store.Value()), changes)
      ensures Announced()
      ensures ScanOutcome(old(store.entries), store.entries, Scanned(dir.files, Baseline(old(store.Value())), hash))
    {
      var tree := store.ScanBaselineSnapshot();
      var scanned := ScanAll(dir.files, tree, hash);
      changes := Diff(scanned, tree);
      ScanConverges(store.Value(), changes, scanned);
      PublishAll(changes);
    }

    method DoAcceptWrite(op: PushOp, changeOp: Op, t: Times) returns (result: PushResult)
      requires changeOp == Create || changeOp == Update
      modifies store, dir, bc.subs
      ensures (Value(), result) == AcceptWrite(old(Value()), op, changeOp, t, hash)
      ensures Announced()
    {
      var made := dir.MakeParents(op.path);
      if !made {
        return PushResult(op.path, Conflict(MkdirFailed, 0, []));
      }
      var written := dir.Put(op.path, FileStat(op.data, Mode(dir.files, op.path), t.disk));
      MadeDirectories(old(dir.files), old(dir.dirs), op.path);
      if !written {
        return PushResult(op.path, Conflict(WriteFailed, 0, []));
      }
      var digest := hash(op.data);
      var entry := ChangeEntry(0, op.path, changeOp, Meta(File, digest, |op.data|, 0x1A4, t.row));
      var version := Publish(entry);
      AnnouncedOne();
      result := PushResult(op.path, Accepted(version));
    }

    method PushCreate(op: PushOp, policy: Policy, t: Times) returns (result: PushResult)
      requires op.kind.OpCreate?
      modifies store, dir, bc.subs
      ensures (Value(), result) == PushOne(old(Value()), op, policy, t, hash)
      ensures Announced()
    {
      var existing := store.EntryLookup(op.path);
      if existing.None? {
        result := DoAcceptWrite(op, Create, t);
      } else if policy == CLIENT_WINS {
        result := DoAcceptWrite(op, Update, t);
      } else {
        var version := VersionForEntry(op.path);
        result := PushResult(op.path, Conflict(FileAlreadyExists, version, existing.value.meta.digest));
      }
    }

    method PushUpdate(op: PushOp, policy: Policy, t: Times) returns (result: PushResult)
      requires op.kind.OpUpdate?
      modifies store, dir, bc.subs
      ensures (Value(), result) == PushOne(old(Value()), op, policy, t, hash)
      ensures Announced()
    {
      var existing := store.EntryLookup(op.path);
      if existing.None? {
        return PushResult(op.path, Conflict(FileNotFound, 0, []));
      }
      var currentVersion := VersionForEntry(op.path);
      if currentVersion == op.baseVersion {
        result := DoAcceptWrite(op, Update, t);
      } else if policy == CLIENT_WINS {
        result := DoAcceptWrite(op, Update, t);
      } else if policy == HUB_WINS {
        result := PushResult(op.path, Conflict(HubWins, currentVersion, existing.value.meta.digest));
      } else {
        result := PushResult(op.path, Conflict(VersionConflict, currentVersion, existing.value.meta.digest));
      }
    }

    method PushDelete(op: PushOp, policy: Policy, t: Times) returns (result: PushResult)
      requires op.kind.OpDelete?
      modifies store, dir, bc.subs
      ensures (Value(), result) == PushOne(old(Value()), op, policy, t, hash)
      ensures Announced()
    {
      var existing := store.EntryLookup(op.path);
      if existing.None? {
        return PushResult(op.path, Accepted(0));
      }
      var currentVersion := VersionForEntry(op.path);
      if currentVersion != op.baseVersion && policy == FAIL {
        return PushResult(op.path, Conflict(VersionConflictOnDelete, currentVersion, existing.value.meta.digest));
      }
      var failed := dir.Remove(op.path);
      var version := Publish(ChangeEntry(0, op.path, Delete, Meta(File, [], 0, 0, t.row)));
      AnnouncedOne();
      result := PushResult(op.path, Accepted(version));
    }

    method ProcessPushOp(op: PushOp, policy: Policy, t: Times) returns (result: PushResult)
      modifies store, dir, bc.subs
      ensures (Value(), result) == PushOne(old(Value()), op, policy, t, hash)
      ensures Announced()
    {
      match op.kind
      case OpCreate => result := PushCreate(op, policy, t);
      case OpUpdate => result := PushUpdate(op, policy, t);
      case OpDelete => result := PushDelete(op, policy, t);
      case OpUnknown(_) => result := PushResult(op.path, Conflict(UnknownOp, 0, []));
    }

    /** What one more announced op adds to what was announced since log was before. */
    lemma AnnouncedMore(queue: Log, before: Log, middle: Log, after: Log)
      requires before <= middle <= after
      ensures OfferLog(OfferLog(queue, middle[|before|..]), after[|middle|..]) == OfferLog(queue, after[|before|..])
    {
      OfferLogConcat(queue, middle[|before|..], after[|middle|..]);
      assert after[|before|..] == middle[|before|..] + after[|middle|..];
    }

    /** A push request: each op in turn, against the state the earlier ones left;
        every channel is offered what the whole request added to the log. */
    method ProcessPush(ops: seq<PushOp>, policy: Policy, clock: Clock) returns (results: seq<PushResult>)
      modifies store, dir, bc.subs
      ensures (Value(), results) == PushAll(old(Value()), ops, policy, clock, hash)
      ensures Announced()
    {
      results := [];
      for i := 0 to |ops|
        invariant (Value(), results) == PushAll(old(Value()), ops[..i], policy, clock, hash)
        invariant Announced()
      {
        assert Front(ops[..i + 1]) == ops[..i];
        ghost var middle := store.log;
        label Before:
        var result := ProcessPushOp(ops[i], policy, clock(i));
        forall ch | ch in bc.subs ensures ch.queue == OfferLog(old(ch.queue), store.log[|old(store.log)|..]) {
          AnnouncedMore(old(ch.queue), old(store.log), middle, store.log);
          assert ch.queue == OfferLog(old@Before(ch.queue), store.log[|middle|..]);
        }
        results := results + [result];
      }
      assert ops[..|ops|] == ops;
    }
  }
}
