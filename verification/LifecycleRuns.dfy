/** Every run of edits, scans, pushes, uploads, evictions, restores and crashes. */
module LifecycleRuns {
  import opened Types
  import opened ChangeLog
  import opened HubStore
  import opened Remote
  import opened Scanning
  import opened Places
  import opened Push
  import opened Lifecycle
  import opened ArchiveGC

  /** touched: the paths the user changed since they were last scanned or written.
      source only records history: the content each row's digest and size were
      taken from. */
  datatype Sys = Sys(w: World, touched: set<Path>, source: map<Path, Bytes>)

  datatype Act =
    | Edit(path: Path, stat: FileStat)
    | Remove(path: Path)
    | MakeDirectory(path: Path)
    | Scan(changes: seq<ChangeEntry>)
    | DoPush(op: PushOp, policy: Policy, times: Times)
    | TryArchive(path: Path, at: int, crash: bool)
    | Seed(path: Path)
    | DoArchive(path: Path, at: int, crash: bool)
    | DoEvict(path: Path, lookup: Option<Heads>, crash: bool)
    | DoRestore(path: Path, at: int)
    | Collect(gone: set<string>)

  function PushWorld(w: World, op: PushOp, policy: Policy, t: Times, hash: Hasher): World {
    var h := PushOne(HubState(w.db, w.disk, w.dirs), op, policy, t, hash).0;
    World(h.db, w.remote, h.files, h.dirs)
  }

  function ActWorld(w: World, a: Act, cfg: Config): World {
    match a
    case Edit(p, stat) => w.(disk := w.disk[p := stat], dirs := Made(w.disk, w.dirs, p))
    case Remove(p) => var (disk, dirs) := Unlinked(w.disk, w.dirs, p); w.(disk := disk, dirs := dirs)
    case MakeDirectory(p) => w.(dirs := Made(w.disk, w.dirs, p) + {p})
    case Scan(changes) => w.(db := AppendAll(w.db, changes))
    case DoPush(op, policy, times) => PushWorld(w, op, policy, times, cfg.hash)
    case TryArchive(p, at, crash) => if crash then w.(remote := Backup(w, cfg, p).0) else ArchiveOne(w, cfg, p, at).0
    case Seed(p) => SeedRow(w, cfg, p).0
    case DoArchive(p, at, crash) => if crash then w.(remote := Archive(w, cfg, p, at).0.remote)
      else Archive(w, cfg, p, at).0
    case DoEvict(p, lookup, crash) => Evict(w, cfg, p, lookup, crash).0
    case DoRestore(p, at) => Restore(w, cfg, p, at, false).0
    case Collect(gone) => w.(remote := w.remote.(versions := w.remote.versions - gone))
  }

  function Touched(s: Sys, a: Act, cfg: Config): set<Path> {
    match a
    case Edit(p, _) => s.touched + {p}
    case Remove(p) => s.touched + {p}
    case Scan(_) => {}
    case DoPush(op, policy, times) => if PushWorld(s.w, op, policy, times, cfg.hash).db == s.w.db then s.touched
      else s.touched - {op.path}
    case Seed(p) => if p in s.w.disk then s.touched - {p} else s.touched
    case DoRestore(p, at) => if Restore(s.w, cfg, p, at, false).1.Ok? then s.touched - {p} else s.touched
    case _ => s.touched
  }

  /** A row that is new or changed was taken from what is on disk now. */
  function SourceAfter(s: Sys, w': World): map<Path, Bytes> {
    map p | p in w'.db.entries ::
      if p in s.w.db.entries && s.w.db.entries[p].meta == w'.db.entries[p].meta && p in s.source then s.source[p]
      else if p in w'.disk then w'.disk[p].content
      else []
  }

  function Next(s: Sys, a: Act, cfg: Config): Sys {
    var w' := ActWorld(s.w, a, cfg);
    Sys(w', Touched(s, a, cfg), SourceAfter(s, w'))
  }

  /** Files and directories are made where nothing is in their way. A scan reports
      what it sees, and its digest cache is honest. Uploads and evictions run on
      paths whose file is as last scanned; the reconciler archives pending rows, and
      may crash before the stamp. A restore finds no directory at its path. A seeded
      path has no row. A collection spares the keys of file rows. */
  ghost predicate Allowed(s: Sys, a: Act, cfg: Config) {
    match a
    case Edit(p, _) => Relative(p) && Free(s.w.disk, s.w.dirs, p)
    case MakeDirectory(p) => p !in s.w.disk && !FileAbove(s.w.disk, p)
    case Scan(changes) =>
      && IsDiff(changes, Scanned(s.w.disk, Baseline(s.w.db), cfg.hash), Baseline(s.w.db))
      && Honest(s.w.disk, Baseline(s.w.db), cfg.hash)
    case DoPush(op, _, _) => Relative(op.path)
    case TryArchive(p, _, _) => p !in s.touched
    case Seed(p) => p !in s.w.db.entries
    case DoArchive(p, _, crash) => p !in s.touched && (crash ==> Pending(s.w.db, p))
    case DoEvict(p, _, _) => p !in s.touched
    case DoRestore(p, _) => p !in Directories(s.w.disk, s.w.dirs)
    case Collect(gone) => forall p :: p in s.w.db.entries && s.w.db.entries[p].meta.kind.File? ==>
      KeyFor(cfg, p) !in gone
    case _ => true
  }

  // ---- The invariant ------------------------------------------------------------------

  /** The row's digest and size are those of this content. */
  ghost predicate TakenFrom(row: HubEntry, x: Bytes, hash: Hasher) {
    hash(x) == row.meta.digest && |x| == row.meta.size
  }

  /** The remote head is the recorded version and holds the row's content. */
  ghost predicate Backed(remote: Bucket, key: string, row: HubEntry, cfg: Config) {
    match HeadVersion(remote, key)
    case None => false
    case Some(v) =>
      && v.info.fileId == row.fileId && v.info.digest == row.meta.digest && cfg.hash(v.data) == row.meta.digest
      && (v.info.digestAlgo == "" || v.info.digestAlgo == cfg.algo)
  }

  /** The local file, if any, has the row's content; only an unpinned row lacks one. */
  ghost predicate InStep(disk: Disk, p: Path, row: HubEntry, hash: Hasher) {
    (p in disk ==> hash(disk[p].content) == row.meta.digest) && (!row.state.Unpinned? ==> p in disk)
  }

  ghost predicate RowOk(w: World, cfg: Config, p: Path)
    requires p in w.db.entries
  {
    var row := w.db.entries[p];
    && Relative(p) && row.meta.kind.File?
    && (row.state.Archived? || row.state.Unpinned? ==> Backed(w.remote, KeyFor(cfg, p), row, cfg))
  }

  ghost predicate PathOk(s: Sys, cfg: Config, p: Path) {
    p in s.w.db.entries ==>
      && RowOk(s.w, cfg, p)
      && p in s.source && TakenFrom(s.w.db.entries[p], s.source[p], cfg.hash)
      && (p !in s.touched ==> InStep(s.w.disk, p, s.w.db.entries[p], cfg.hash))
  }

  /** The size is the data's, and so is the digest, if there is one. */
  ghost predicate Genuine(v: Version, hash: Hasher) {
    v.info.size == |v.data| && (v.info.digest != [] ==> hash(v.data) == v.info.digest)
  }

  ghost predicate Stamped(remote: Bucket, hash: Hasher) {
    forall k :: HeadVersion(remote, k).Some? ==> Genuine(HeadVersion(remote, k).value, hash)
  }

  ghost predicate RelativeDisk(disk: Disk) {
    forall p :: p in disk ==> Relative(p)
  }

  ghost predicate RowsOk(s: Sys, cfg: Config) {
    Stamped(s.w.remote, cfg.hash) && RelativeDisk(s.w.disk) && forall p :: PathOk(s, cfg, p)
  }

  ghost predicate Inv(s: Sys, cfg: Config) {
    RowsOk(s, cfg) && Treelike(s.w.disk, s.w.dirs) && WellFormed(s.w.remote)
  }

  // ---- Steps keep it --------------------------------------------------------------------

  /** Row, head and file of p are the same. */
  ghost predicate SameThere(w: World, w': World, cfg: Config, p: Path) {
    && SameRow(w'.db.entries, w.db.entries, p)
    && HeadVersion(w'.remote, KeyFor(cfg, p)) == HeadVersion(w.remote, KeyFor(cfg, p))
    && (p in w'.disk <==> p in w.disk) && (p in w.disk ==> w'.disk[p] == w.disk[p])
  }

  /** Nothing that matters to p changed. */
  ghost predicate SameAt(s: Sys, s': Sys, cfg: Config, p: Path) {
    && SameThere(s.w, s'.w, cfg, p)
    && (p in s.touched ==> p in s'.touched)
    && s'.source == SourceAfter(s, s'.w)
  }

  /** A row keeps its source while its metadata stays, and otherwise has one on disk. */
  lemma SourceKeeps(s: Sys, w': World, cfg: Config, p: Path)
    requires PathOk(s, cfg, p) && p in w'.db.entries
    requires (p in s.w.db.entries && s.w.db.entries[p].meta == w'.db.entries[p].meta)
      || (p in w'.disk && TakenFrom(w'.db.entries[p], w'.disk[p].content, cfg.hash))
    ensures p in SourceAfter(s, w') && TakenFrom(w'.db.entries[p], SourceAfter(s, w')[p], cfg.hash)
  {}

  lemma SameKeeps(s: Sys, s': Sys, cfg: Config, p: Path)
    requires PathOk(s, cfg, p) && SameAt(s, s', cfg, p)
    ensures PathOk(s', cfg, p)
  {}

  lemma UploadKeepsStamps(remote: Bucket, key: string, data: Bytes, digest: Digest, algo: string, hash: Hasher)
    requires Stamped(remote, hash) && hash(data) == digest
    ensures Stamped(UploadTo(remote, key, data, digest, algo), hash)
  {
    var remote' := UploadTo(remote, key, data, digest, algo);
    forall k | HeadVersion(remote', k).Some? ensures Genuine(HeadVersion(remote', k).value, hash) {
      UploadBecomesHead(remote, key, data, digest, algo, k);
      assert k != key ==> HeadVersion(remote', k) == HeadVersion(remote, k);
    }
  }

  /** A fresh upload of the row's content, recorded in the row, backs it. */
  lemma UploadBacks(w: World, cfg: Config, p: Path, at: int)
    requires p in w.db.entries && p in w.disk && RowOk(w, cfg, p)
    requires cfg.hash(w.disk[p].content) == w.db.entries[p].meta.digest
    ensures var remote := UploadTo(w.remote, KeyFor(cfg, p), w.disk[p].content, w.db.entries[p].meta.digest, cfg.algo);
            RowOk(w.(db := MarkArchivedDb(w.db, p, remote.counter, [], at), remote := remote), cfg, p)
  {
    UploadBecomesHead(w.remote, KeyFor(cfg, p), w.disk[p].content, w.db.entries[p].meta.digest, cfg.algo, "");
  }

  lemma UploadElsewhere(w: World, cfg: Config, p: Path, data: Bytes, digest: Digest, q: Path)
    requires Relative(p) && Relative(q) && p != q
    ensures HeadVersion(UploadTo(w.remote, KeyFor(cfg, p), data, digest, cfg.algo), KeyFor(cfg, q))
      == HeadVersion(w.remote, KeyFor(cfg, q))
  {
    if KeyFor(cfg, p) == KeyFor(cfg, q) {
      KeyInjective(cfg.prefix, p, q);
    }
    UploadBecomesHead(w.remote, KeyFor(cfg, p), data, digest, cfg.algo, KeyFor(cfg, q));
  }

  lemma EditKeeps(s: Sys, cfg: Config, p: Path, stat: FileStat)
    requires Inv(s, cfg) && Relative(p)
    ensures RowsOk(Next(s, Edit(p, stat), cfg), cfg)
  {
    var s' := Next(s, Edit(p, stat), cfg);
    forall q ensures PathOk(s', cfg, q) {
      assert PathOk(s, cfg, q);
      if q != p {
        SameKeeps(s, s', cfg, q);
      }
    }
  }

  lemma RemoveKeeps(s: Sys, cfg: Config, p: Path)
    requires Inv(s, cfg)
    ensures RowsOk(Next(s, Remove(p), cfg), cfg)
  {
    var s' := Next(s, Remove(p), cfg);
    forall q ensures PathOk(s', cfg, q) {
      assert PathOk(s, cfg, q);
      if q != p {
        SameKeeps(s, s', cfg, q);
      }
    }
  }

  /** A written row: content and size as on disk, pending. */
  lemma WrittenOk(s: Sys, s': Sys, cfg: Config, p: Path)
    requires PathOk(s, cfg, p) && s'.source == SourceAfter(s, s'.w)
    requires Relative(p) && p in s'.w.db.entries && p in s'.w.disk
    requires var row := s'.w.db.entries[p];
             && row.meta.kind.File? && (row.state.Null? || row.state.Dirty?)
             && TakenFrom(row, s'.w.disk[p].content, cfg.hash)
    ensures PathOk(s', cfg, p)
  {
    SourceKeeps(s, s'.w, cfg, p);
  }

  lemma ScanKeepsPath(s: Sys, cfg: Config, changes: seq<ChangeEntry>, p: Path)
    requires Inv(s, cfg) && Allowed(s, Scan(changes), cfg)
    ensures PathOk(Next(s, Scan(changes), cfg), cfg, p)
  {
    var s' := Next(s, Scan(changes), cfg);
    var tree := Baseline(s.w.db);
    var scanned := Scanned(s.w.disk, tree, cfg.hash);
    ScanAt(s.w.db, changes, scanned, p);
    HonestScan(s.w.disk, tree, cfg.hash);
    if p in Wanted(scanned, tree) {
      ScanWritten(s, cfg, changes, p);
      assert PathOk(s, cfg, p);
      WrittenOk(s, s', cfg, p);
    } else if p !in Gone(scanned, tree) {
      assert PathOk(s, cfg, p);
    }
  }

  /** A path the scan reports becomes a pending row, if it was not one already. */
  lemma ScanWritten(s: Sys, cfg: Config, changes: seq<ChangeEntry>, p: Path)
    requires Inv(s, cfg) && Allowed(s, Scan(changes), cfg)
    requires p in Wanted(Scanned(s.w.disk, Baseline(s.w.db), cfg.hash), Baseline(s.w.db))
    ensures var row := AppendAll(s.w.db, changes).entries;
            && p in row && p in s.w.disk && row[p].meta.kind.File? && (row[p].state.Null? || row[p].state.Dirty?)
            && row[p].meta.digest == cfg.hash(s.w.disk[p].content) && row[p].meta.size == |s.w.disk[p].content|
  {
    var tree := Baseline(s.w.db);
    var scanned := Scanned(s.w.disk, tree, cfg.hash);
    ScanAt(s.w.db, changes, scanned, p);
    HonestScan(s.w.disk, tree, cfg.hash);
    if p !in s.w.db.entries {
      var k := DiffFinds(changes, scanned, tree, p);
      DiffSide(changes, scanned, tree, k);
      forall i | 0 <= i < |changes| && i != k ensures changes[i].path != changes[k].path {
        DiffDistinct(changes, scanned, tree, i, k);
      }
      AppendAllOnce(s.w.db, changes, k);
    }
  }

  lemma ScanKeeps(s: Sys, cfg: Config, changes: seq<ChangeEntry>)
    requires Inv(s, cfg) && Allowed(s, Scan(changes), cfg)
    ensures RowsOk(Next(s, Scan(changes), cfg), cfg)
  {
    forall p ensures PathOk(Next(s, Scan(changes), cfg), cfg, p) {
      ScanKeepsPath(s, cfg, changes, p);
    }
  }

  /** What a push that changed anything did to its path: without row and file, or
      with both in step; only a row of the same digest keeps its archive state. */
  ghost predicate Pushed(w: World, w': World, p: Path, data: Bytes, hash: Hasher) {
    && |w'.db.log| == |w.db.log| + 1 && w'.remote == w.remote
    && (p in w'.db.entries ==>
         var row := w'.db.entries[p];
         && p in w'.disk && w'.disk[p].content == data
         && row.meta.kind.File? && row.meta.digest == hash(data) && row.meta.size == |data| && !row.state.Unpinned?
         && (row.state.Archived? ==>
              && p in w.db.entries && w.db.entries[p].state.Archived?
              && w.db.entries[p].meta.digest == hash(data) && row.fileId == w.db.entries[p].fileId))
  }

  lemma PushedRow(w: World, op: PushOp, policy: Policy, t: Times, hash: Hasher)
    requires PushWorld(w, op, policy, t, hash) != w
    ensures Pushed(w, PushWorld(w, op, policy, t, hash), op.path, op.data, hash)
  {}

  lemma PushedOk(s: Sys, s': Sys, cfg: Config, p: Path, data: Bytes)
    requires PathOk(s, cfg, p) && Pushed(s.w, s'.w, p, data, cfg.hash) && Relative(p)
    requires s'.source == SourceAfter(s, s'.w)
    ensures PathOk(s', cfg, p)
  {
    if p in s'.w.db.entries {
      SourceKeeps(s, s'.w, cfg, p);
    }
  }

  lemma PushElsewhere(w: World, cfg: Config, op: PushOp, policy: Policy, t: Times, q: Path)
    requires q != op.path
    ensures SameThere(w, PushWorld(w, op, policy, t, cfg.hash), cfg, q)
  {}

  lemma PushNothing(s: Sys, cfg: Config, op: PushOp, policy: Policy, t: Times, q: Path)
    requires PushWorld(s.w, op, policy, t, cfg.hash) == s.w
    ensures SameAt(s, Next(s, DoPush(op, policy, t), cfg), cfg, q)
  {}

  lemma PushKeepsPath(s: Sys, cfg: Config, op: PushOp, policy: Policy, t: Times, q: Path)
    requires Inv(s, cfg) && Relative(op.path)
    ensures PathOk(Next(s, DoPush(op, policy, t), cfg), cfg, q)
  {
    assert PathOk(s, cfg, q);
    if PushWorld(s.w, op, policy, t, cfg.hash) == s.w {
      PushNothing(s, cfg, op, policy, t, q);
      SameKeeps(s, Next(s, DoPush(op, policy, t), cfg), cfg, q);
    } else if q != op.path {
      PushElsewhere(s.w, cfg, op, policy, t, q);
      SameKeeps(s, Next(s, DoPush(op, policy, t), cfg), cfg, q);
    } else {
      PushedRow(s.w, op, policy, t, cfg.hash);
      PushedOk(s, Next(s, DoPush(op, policy, t), cfg), cfg, q, op.data);
    }
  }

  lemma PushKeeps(s: Sys, cfg: Config, op: PushOp, policy: Policy, t: Times)
    requires Inv(s, cfg) && Relative(op.path)
    ensures RowsOk(Next(s, DoPush(op, policy, t), cfg), cfg)
  {
    forall p ensures PathOk(Next(s, DoPush(op, policy, t), cfg), cfg, p) {
      PushKeepsPath(s, cfg, op, policy, t, p);
    }
  }

  // An upload attempt is one of: nothing, a stamp of the matching head, an upload
  // alone, an upload and a stamp.

  lemma MatchedHeadBacks(w: World, cfg: Config, p: Path, at: int)
    requires Stamped(w.remote, cfg.hash) && p in w.db.entries && RowOk(w, cfg, p) && Backup(w, cfg, p).1.HeadMatched?
    ensures RowOk(ArchiveOne(w, cfg, p, at).0, cfg, p)
  {
    assert HeadVersion(w.remote, KeyFor(cfg, p)).Some?;
  }

  /** An upload by archiveOne, stamped or not. */
  lemma UploadedKeepsPath(s: Sys, cfg: Config, p: Path, at: int, crash: bool, q: Path)
    requires Inv(s, cfg) && p !in s.touched && Backup(s.w, cfg, p).1.Uploaded?
    ensures PathOk(Next(s, TryArchive(p, at, crash), cfg), cfg, q)
  {
    var s' := Next(s, TryArchive(p, at, crash), cfg);
    assert PathOk(s, cfg, p) && PathOk(s, cfg, q);
    if q == p {
      UploadBacks(s.w, cfg, p, at);
    } else if q in s.w.db.entries {
      UploadElsewhere(s.w, cfg, p, s.w.disk[p].content, s.w.db.entries[p].meta.digest, q);
      SameKeeps(s, s', cfg, q);
    }
  }

  lemma TryArchiveKeepsPath(s: Sys, cfg: Config, p: Path, at: int, crash: bool, q: Path)
    requires Inv(s, cfg) && p !in s.touched
    ensures PathOk(Next(s, TryArchive(p, at, crash), cfg), cfg, q)
  {
    assert PathOk(s, cfg, p) && PathOk(s, cfg, q);
    if Backup(s.w, cfg, p).1.Uploaded? {
      UploadedKeepsPath(s, cfg, p, at, crash, q);
    } else if q == p && !crash && Backup(s.w, cfg, p).1.HeadMatched? {
      MatchedHeadBacks(s.w, cfg, p, at);
    } else {
      SameKeeps(s, Next(s, TryArchive(p, at, crash), cfg), cfg, q);
    }
  }

  lemma TryArchiveKeeps(s: Sys, cfg: Config, p: Path, at: int, crash: bool)
    requires Inv(s, cfg) && p !in s.touched
    ensures RowsOk(Next(s, TryArchive(p, at, crash), cfg), cfg)
  {
    var s' := Next(s, TryArchive(p, at, crash), cfg);
    assert PathOk(s, cfg, p);
    if Backup(s.w, cfg, p).1.Uploaded? {
      UploadKeepsStamps(s.w.remote, KeyFor(cfg, p), s.w.disk[p].content, s.w.db.entries[p].meta.digest, cfg.algo,
                        cfg.hash);
    }
    forall q ensures PathOk(s', cfg, q) {
      TryArchiveKeepsPath(s, cfg, p, at, crash, q);
    }
  }

  lemma ArchiveKeepsPath(s: Sys, cfg: Config, p: Path, at: int, crash: bool, q: Path)
    requires Inv(s, cfg) && Allowed(s, DoArchive(p, at, crash), cfg)
    ensures PathOk(Next(s, DoArchive(p, at, crash), cfg), cfg, q)
  {
    var s' := Next(s, DoArchive(p, at, crash), cfg);
    assert PathOk(s, cfg, p) && PathOk(s, cfg, q);
    if Archive(s.w, cfg, p, at).0 == s.w {
      SameKeeps(s, s', cfg, q);
    } else if q == p {
      UploadBacks(s.w, cfg, p, at);
    } else if q in s.w.db.entries {
      UploadElsewhere(s.w, cfg, p, s.w.disk[p].content, s.w.db.entries[p].meta.digest, q);
      SameKeeps(s, s', cfg, q);
    }
  }

  lemma ArchiveKeeps(s: Sys, cfg: Config, p: Path, at: int, crash: bool)
    requires Inv(s, cfg) && Allowed(s, DoArchive(p, at, crash), cfg)
    ensures RowsOk(Next(s, DoArchive(p, at, crash), cfg), cfg)
  {
    assert PathOk(s, cfg, p);
    if Archive(s.w, cfg, p, at).0 != s.w {
      UploadKeepsStamps(s.w.remote, KeyFor(cfg, p), s.w.disk[p].content, s.w.db.entries[p].meta.digest, cfg.algo,
                        cfg.hash);
    }
    forall q ensures PathOk(Next(s, DoArchive(p, at, crash), cfg), cfg, q) {
      ArchiveKeepsPath(s, cfg, p, at, crash, q);
    }
  }

  lemma EvictElsewhere(w: World, cfg: Config, p: Path, lookup: Option<Heads>, crash: bool, q: Path)
    requires q != p
    ensures SameThere(w, Evict(w, cfg, p, lookup, crash).0, cfg, q)
  {}

  /** What an eviction does to its own path, however far it gets. */
  lemma EvictHere(w: World, cfg: Config, p: Path, lookup: Option<Heads>, crash: bool)
    ensures var w' := Evict(w, cfg, p, lookup, crash).0;
            && w'.remote == w.remote && (p in w'.disk ==> p in w.disk && w'.disk[p] == w.disk[p])
            && (w' == w || (p in w.db.entries && w.db.entries[p].state.Archived?
                            && p in w'.db.entries && w'.db.entries[p] == w.db.entries[p].(state := Unpinned)))
  {}

  lemma EvictKeeps(s: Sys, cfg: Config, p: Path, lookup: Option<Heads>, crash: bool)
    requires Inv(s, cfg)
    ensures RowsOk(Next(s, DoEvict(p, lookup, crash), cfg), cfg)
  {
    var s' := Next(s, DoEvict(p, lookup, crash), cfg);
    EvictHere(s.w, cfg, p, lookup, crash);
    forall q ensures PathOk(s', cfg, q) {
      assert PathOk(s, cfg, q);
      if q != p {
        EvictElsewhere(s.w, cfg, p, lookup, crash, q);
        SameKeeps(s, s', cfg, q);
      } else if p in s'.w.db.entries {
        SourceKeeps(s, s'.w, cfg, p);
      }
    }
  }

  lemma RestoreElsewhere(w: World, cfg: Config, p: Path, at: int, q: Path)
    requires q != p
    ensures SameThere(w, Restore(w, cfg, p, at, false).0, cfg, q)
  {}

  /** A restore that is refused before it stamps, or one that goes through. */
  lemma RestoreHere(w: World, cfg: Config, p: Path, at: int)
    requires p !in Directories(w.disk, w.dirs)
    ensures var (w', r) := Restore(w, cfg, p, at, false);
            if r.Err? then SameThere(w, w', cfg, p)
            else && p in w.db.entries && p in w'.db.entries && p in w'.disk && w'.remote == w.remote
                 && w.db.entries[p].state.Unpinned?
                 && w'.db.entries[p].meta == w.db.entries[p].meta && w'.db.entries[p].state.Archived?
                 && w'.db.entries[p].fileId == w.db.entries[p].fileId
                 && cfg.hash(w'.disk[p].content) == w.db.entries[p].meta.digest
  {}

  lemma RestoreKeeps(s: Sys, cfg: Config, p: Path, at: int)
    requires Inv(s, cfg) && Allowed(s, DoRestore(p, at), cfg)
    ensures RowsOk(Next(s, DoRestore(p, at), cfg), cfg)
  {
    var s' := Next(s, DoRestore(p, at), cfg);
    assert PathOk(s, cfg, p);
    RestoreHere(s.w, cfg, p, at);
    forall q ensures PathOk(s', cfg, q) {
      assert PathOk(s, cfg, q);
      if q != p {
        RestoreElsewhere(s.w, cfg, p, at, q);
        SameKeeps(s, s', cfg, q);
      } else if Restore(s.w, cfg, p, at, false).1.Err? {
        SameKeeps(s, s', cfg, q);
      } else {
        SourceKeeps(s, s'.w, cfg, p);
      }
    }
  }

  lemma SeedKeeps(s: Sys, cfg: Config, p: Path)
    requires Inv(s, cfg) && p !in s.w.db.entries
    ensures RowsOk(Next(s, Seed(p), cfg), cfg)
  {
    var s' := Next(s, Seed(p), cfg);
    forall q ensures PathOk(s', cfg, q) {
      assert PathOk(s, cfg, q);
      if q != p {
        SameKeeps(s, s', cfg, q);
      } else if p in s.w.disk {
        WrittenOk(s, s', cfg, p);
      }
    }
  }

  lemma CollectKeeps(s: Sys, cfg: Config, gone: set<string>)
    requires Inv(s, cfg) && Allowed(s, Collect(gone), cfg)
    ensures RowsOk(Next(s, Collect(gone), cfg), cfg)
  {
    var s' := Next(s, Collect(gone), cfg);
    forall k ensures HeadVersion(s'.w.remote, k) == if k in gone then None else HeadVersion(s.w.remote, k) {}
    forall q ensures PathOk(s', cfg, q) {
      assert PathOk(s, cfg, q);
      if q in s.w.db.entries {
        SameKeeps(s, s', cfg, q);
      }
    }
  }

  lemma MakeDirectoryKeeps(s: Sys, cfg: Config, p: Path)
    requires Inv(s, cfg)
    ensures RowsOk(Next(s, MakeDirectory(p), cfg), cfg)
  {
    var s' := Next(s, MakeDirectory(p), cfg);
    forall q ensures PathOk(s', cfg, q) {
      assert PathOk(s, cfg, q);
      SameKeeps(s, s', cfg, q);
    }
  }

  lemma NextRows(s: Sys, a: Act, cfg: Config)
    requires Inv(s, cfg) && Allowed(s, a, cfg)
    ensures RowsOk(Next(s, a, cfg), cfg)
  {
    match a
    case Edit(p, stat) => EditKeeps(s, cfg, p, stat);
    case Remove(p) => RemoveKeeps(s, cfg, p);
    case MakeDirectory(p) => MakeDirectoryKeeps(s, cfg, p);
    case Scan(changes) => ScanKeeps(s, cfg, changes);
    case DoPush(op, policy, times) => PushKeeps(s, cfg, op, policy, times);
    case TryArchive(p, at, crash) => TryArchiveKeeps(s, cfg, p, at, crash);
    case Seed(p) => SeedKeeps(s, cfg, p);
    case DoArchive(p, at, crash) => ArchiveKeeps(s, cfg, p, at, crash);
    case DoEvict(p, lookup, crash) => EvictKeeps(s, cfg, p, lookup, crash);
    case DoRestore(p, at) => RestoreKeeps(s, cfg, p, at);
    case Collect(gone) => CollectKeeps(s, cfg, gone);
  }

  lemma PushTreelike(h: HubState, op: PushOp, policy: Policy, t: Times, hash: Hasher)
    requires Treelike(h.files, h.dirs)
    ensures var h' := PushOne(h, op, policy, t, hash).0; Treelike(h'.files, h'.dirs)
  {
    UnlinkTreelike(h.files, h.dirs, op.path);
    if Free(h.files, h.dirs, op.path) {
      WriteTreelike(h.files, h.dirs, Made(h.files, h.dirs, op.path), op.path,
                    FileStat(op.data, Mode(h.files, op.path), t.disk));
    }
  }

  lemma RestoreTreelike(w: World, cfg: Config, p: Path, at: int, crash: bool)
    requires Treelike(w.disk, w.dirs)
    ensures var w' := Restore(w, cfg, p, at, crash).0; Treelike(w'.disk, w'.dirs)
  {
    if !FileAbove(w.disk, p) {
      MakeTreelike(w.disk, w.dirs, p);
      if p !in Directories(w.disk, w.dirs) {
        WriteTreelike(w.disk, w.dirs, Made(w.disk, w.dirs, p), p,
                      FileStat(RestoreCheck(w, cfg, p).0,
                               if p in w.db.entries then RestoredMode(w.db.entries[p]) else 0, at));
      }
    }
  }

  /** No step puts a file where a directory is, or the other way round. */
  lemma NextTreelike(s: Sys, a: Act, cfg: Config)
    requires Treelike(s.w.disk, s.w.dirs) && Allowed(s, a, cfg)
    ensures var w' := Next(s, a, cfg).w; Treelike(w'.disk, w'.dirs)
  {
    match a
    case Edit(p, stat) => WriteTreelike(s.w.disk, s.w.dirs, Made(s.w.disk, s.w.dirs, p), p, stat);
    case Remove(p) => UnlinkTreelike(s.w.disk, s.w.dirs, p);
    case MakeDirectory(p) => DirectoryTreelike(s.w.disk, s.w.dirs, p);
    case DoPush(op, policy, times) => PushTreelike(HubState(s.w.db, s.w.disk, s.w.dirs), op, policy, times, cfg.hash);
    case DoEvict(p, _, _) => UnlinkTreelike(s.w.disk, s.w.dirs, p);
    case DoRestore(p, at) => RestoreTreelike(s.w, cfg, p, at, false);
    case _ =>
  }

  lemma NextWellFormed(s: Sys, a: Act, cfg: Config)
    requires WellFormed(s.w.remote)
    ensures WellFormed(Next(s, a, cfg).w.remote)
  {
    match a
    case TryArchive(p, at, crash) => {
      if Backup(s.w, cfg, p).1.Uploaded? {
        UploadWellFormed(s.w.remote, KeyFor(cfg, p), s.w.disk[p].content, s.w.db.entries[p].meta.digest, cfg.algo);
      }
    }
    case DoArchive(p, at, crash) => {
      if p in s.w.db.entries && p in s.w.disk {
        UploadWellFormed(s.w.remote, KeyFor(cfg, p), s.w.disk[p].content, s.w.db.entries[p].meta.digest, cfg.algo);
      }
    }
    case Collect(gone) => RemoveWellFormed(s.w.remote, gone);
    case _ =>
  }

  lemma NextKeeps(s: Sys, a: Act, cfg: Config)
    requires Inv(s, cfg) && Allowed(s, a, cfg)
    ensures Inv(Next(s, a, cfg), cfg)
  {
    NextRows(s, a, cfg);
    NextTreelike(s, a, cfg);
    NextWellFormed(s, a, cfg);
  }

  // ---- Runs -------------------------------------------------------------------------------

  function Run(s: Sys, acts: seq<Act>, cfg: Config): Sys
    decreases |acts|
  {
    if acts == [] then s else Run(Next(s, acts[0], cfg), acts[1..], cfg)
  }

  ghost predicate Legal(s: Sys, acts: seq<Act>, cfg: Config)
    decreases |acts|
  {
    acts != [] ==> Allowed(s, acts[0], cfg) && Legal(Next(s, acts[0], cfg), acts[1..], cfg)
  }

  /** A hub that has just been set up: no rows yet, files nobody scanned, and a
      bucket whose stamped digests, if any, are right. */
  ghost predicate Start(s: Sys, cfg: Config) {
    && s.w.db == EMPTY && RelativeDisk(s.w.disk) && Treelike(s.w.disk, s.w.dirs)
    && Stamped(s.w.remote, cfg.hash) && WellFormed(s.w.remote)
  }

  lemma {:induction false} RunKeeps(s: Sys, acts: seq<Act>, cfg: Config)
    requires Inv(s, cfg) && Legal(s, acts, cfg)
    ensures Inv(Run(s, acts, cfg), cfg)
    decreases |acts|
  {
    if acts != [] {
      NextKeeps(s, acts[0], cfg);
      RunKeeps(Next(s, acts[0], cfg), acts[1..], cfg);
    }
  }

  /** After any run, every archived or unpinned row's remote head is the recorded
      version, with the recorded digest and content of that digest; and the
      content of every row the user has not changed since is on disk, or else in
      that head. */
  lemma NothingIsLost(s: Sys, acts: seq<Act>, cfg: Config, p: Path)
    requires Start(s, cfg) && Legal(s, acts, cfg)
    requires p in Run(s, acts, cfg).w.db.entries
    ensures var s' := Run(s, acts, cfg);
            var row := s'.w.db.entries[p];
            && (row.state.Archived? || row.state.Unpinned? ==> Backed(s'.w.remote, KeyFor(cfg, p), row, cfg))
            && (p !in s'.touched ==>
                 || (p in s'.w.disk && cfg.hash(s'.w.disk[p].content) == row.meta.digest)
                 || (row.state.Unpinned? && Backed(s'.w.remote, KeyFor(cfg, p), row, cfg)))
  {
    RunKeeps(s, acts, cfg);
    assert PathOk(Run(s, acts, cfg), cfg, p);
  }

  /** These two contents collide under the content hash. */
  ghost predicate Collide(hash: Hasher, x: Bytes, y: Bytes) {
    x != y && hash(x) == hash(y)
  }

  /** Eviction never removes the last copy: in a reachable state, whatever listing
      it consults, the bytes it unlinks have the digest of the remote head's bytes;
      so they are those bytes, or the two collide. */
  lemma EvictionKeepsACopy(s: Sys, acts: seq<Act>, cfg: Config, p: Path, lookup: Option<Heads>, crash: bool)
    requires Start(s, cfg) && Legal(s, acts, cfg)
    requires var s' := Run(s, acts, cfg);
             p !in s'.touched && p in s'.w.disk && Evict(s'.w, cfg, p, lookup, crash).1.Ok?
    ensures var w := Run(s, acts, cfg).w;
            var head := HeadVersion(Evict(w, cfg, p, lookup, crash).0.remote, KeyFor(cfg, p));
            && head.Some?
            && cfg.hash(head.value.data) == cfg.hash(w.disk[p].content)
            && (head.value.data == w.disk[p].content || Collide(cfg.hash, head.value.data, w.disk[p].content))
  {
    RunKeeps(s, acts, cfg);
    assert PathOk(Run(s, acts, cfg), cfg, p);
  }

  /** Why eviction waits for a scan: after it, the head has the digest of the file it
      unlinked if and only if that file still had the row's digest; bytes edited
      since are on no head and no longer on disk. */
  lemma EvictionDiscardsEdits(s: Sys, cfg: Config, p: Path, lookup: Option<Heads>)
    requires Inv(s, cfg) && Evict(s.w, cfg, p, lookup, false).1.Ok? && p in s.w.disk
    ensures var w', content := Evict(s.w, cfg, p, lookup, false).0, s.w.disk[p].content;
            && p !in w'.disk
            && HeadVersion(w'.remote, KeyFor(cfg, p)).Some?
            && (cfg.hash(HeadVersion(w'.remote, KeyFor(cfg, p)).value.data) == cfg.hash(content) <==>
                cfg.hash(content) == s.w.db.entries[p].meta.digest)
            && (cfg.hash(content) != s.w.db.entries[p].meta.digest ==>
                HeadVersion(w'.remote, KeyFor(cfg, p)).value.data != content)
  {
    assert PathOk(s, cfg, p);
  }

  /** A restore over a file that was put beside an unpinned row keeps its digest if
      and only if it is the row's; any other content is on no head and no longer on
      disk. */
  lemma RestoreDiscardsFile(s: Sys, cfg: Config, p: Path, at: int)
    requires Inv(s, cfg) && Restore(s.w, cfg, p, at, false).1.Ok? && p in s.w.disk
    ensures var w', content := Restore(s.w, cfg, p, at, false).0, s.w.disk[p].content;
            && p in w'.disk && HeadVersion(w'.remote, KeyFor(cfg, p)).Some?
            && w'.disk[p].content == HeadVersion(w'.remote, KeyFor(cfg, p)).value.data
            && (cfg.hash(w'.disk[p].content) == cfg.hash(content) <==>
                cfg.hash(content) == s.w.db.entries[p].meta.digest)
            && (cfg.hash(content) != s.w.db.entries[p].meta.digest ==> w'.disk[p].content != content)
  {
    assert PathOk(s, cfg, p);
  }

  /** Every run leaves a bucket that the garbage collector can take: listed under its
      own keys. */
  lemma RunsCollectable(s: Sys, acts: seq<Act>, cfg: Config)
    requires Start(s, cfg) && Legal(s, acts, cfg)
    ensures OwnKeys(HeadsOf(Run(s, acts, cfg).w.remote))
  {
    RunKeeps(s, acts, cfg);
    WellFormedOwns(Run(s, acts, cfg).w.remote);
  }

  /** What a garbage collection under its guard removes, a run may remove: no
      archived row loses its head to it. */
  lemma CollectionAllowed(s: Sys, cfg: Config, list: string, gone: set<string>)
    requires Inv(s, cfg) && Guard(cfg.prefix, list)
    requires gone <= AllOrphans(cfg.prefix, list, FilePaths(s.w.db.entries), HeadsOf(s.w.remote))
    ensures Allowed(s, Collect(gone), cfg)
  {
    var paths := FilePaths(s.w.db.entries);
    forall p | p in s.w.db.entries && s.w.db.entries[p].meta.kind.File? ensures KeyFor(cfg, p) !in gone {
      assert PathOk(s, cfg, p) && p in paths;
      if HasPrefix(KeyFor(cfg, p), list) {
        GuardKeeps(cfg.prefix, list, paths, p);
      }
    }
  }

  // ---- Retries do not stack versions ---------------------------------------------------------

  function Grown(w: World, w': World, cfg: Config, p: Path): nat {
    var n, n' := |History(w.remote, KeyFor(cfg, p))|, |History(w'.remote, KeyFor(cfg, p))|;
    if n' > n then n' - n else 0
  }

  /** The row was given a digest it did not have. */
  function Reset(w: World, w': World, p: Path): nat {
    if p in w'.db.entries && (p !in w.db.entries || w.db.entries[p].meta.digest != w'.db.entries[p].meta.digest) then 1
      else 0
  }

  /** Versions uploaded to the path's key in a run. */
  function Uploads(s: Sys, acts: seq<Act>, cfg: Config, p: Path): nat
    decreases |acts|
  {
    if acts == [] then 0
    else Grown(s.w, Next(s, acts[0], cfg).w, cfg, p) + Uploads(Next(s, acts[0], cfg), acts[1..], cfg, p)
  }

  function Resets(s: Sys, acts: seq<Act>, cfg: Config, p: Path): nat
    decreases |acts|
  {
    if acts == [] then 0
    else Reset(s.w, Next(s, acts[0], cfg).w, p) + Resets(Next(s, acts[0], cfg), acts[1..], cfg, p)
  }

  function Manual(a: Act, p: Path): nat {
    if a.DoArchive? && a.path == p then 1 else 0
  }

  /** How often the path was archived by the reconciler, which does not look at the head. */
  function Manuals(acts: seq<Act>, p: Path): nat
    decreases |acts|
  {
    if acts == [] then 0 else Manual(acts[0], p) + Manuals(acts[1..], p)
  }

  /** An upload is still due. */
  function Due(w: World, cfg: Config, p: Path): nat {
    var head := Head(w.remote, KeyFor(cfg, p));
    if p in w.db.entries && !(head.Some? && HeadMatches(head.value, w.db.entries[p].meta.digest, cfg.algo)) then 1
      else 0
  }

  ghost predicate NeverEmpty(hash: Hasher) {
    forall x :: hash(x) != []
  }

  /** An upload of the row's content makes the head match, at one more version. */
  lemma UploadSettles(w: World, cfg: Config, p: Path, at: int)
    requires p in w.db.entries && p in w.disk && w.db.entries[p].meta.digest != []
    ensures var remote := UploadTo(w.remote, KeyFor(cfg, p), w.disk[p].content, w.db.entries[p].meta.digest, cfg.algo);
            && Due(w.(remote := remote), cfg, p) == 0
            && Due(w.(db := MarkArchivedDb(w.db, p, remote.counter, [], at), remote := remote), cfg, p) == 0
            && |History(remote, KeyFor(cfg, p))| == |History(w.remote, KeyFor(cfg, p))| + 1
  {
    UploadBecomesHead(w.remote, KeyFor(cfg, p), w.disk[p].content, w.db.entries[p].meta.digest, cfg.algo, "");
  }

  lemma UploadToOther(w: World, cfg: Config, q: Path, p: Path, data: Bytes, digest: Digest)
    requires Relative(p) && Relative(q) && p != q
    ensures History(UploadTo(w.remote, KeyFor(cfg, q), data, digest, cfg.algo), KeyFor(cfg, p))
      == History(w.remote, KeyFor(cfg, p))
  {
    if KeyFor(cfg, p) == KeyFor(cfg, q) {
      KeyInjective(cfg.prefix, p, q);
    }
  }

  ghost predicate Paid(w: World, w': World, cfg: Config, p: Path, manual: nat) {
    Grown(w, w', cfg, p) + Due(w', cfg, p) <= Reset(w, w', p) + Due(w, cfg, p) + manual
  }

  lemma TryArchivePaid(s: Sys, cfg: Config, q: Path, at: int, crash: bool, p: Path)
    requires Inv(s, cfg) && q !in s.touched && NeverEmpty(cfg.hash) && Relative(p)
    ensures Paid(s.w, ActWorld(s.w, TryArchive(q, at, crash), cfg), cfg, p, 0)
  {
    if Backup(s.w, cfg, q).1.Uploaded? {
      assert PathOk(s, cfg, q);
      if q == p {
        UploadSettles(s.w, cfg, p, at);
      } else {
        UploadToOther(s.w, cfg, q, p, s.w.disk[q].content, s.w.db.entries[q].meta.digest);
      }
    } else {
      OtherPaid(s.w, ActWorld(s.w, TryArchive(q, at, crash), cfg), cfg, p);
    }
  }

  lemma ArchivePaid(s: Sys, cfg: Config, q: Path, at: int, crash: bool, p: Path)
    requires Inv(s, cfg) && q !in s.touched && NeverEmpty(cfg.hash) && Relative(p)
    ensures Paid(s.w, ActWorld(s.w, DoArchive(q, at, crash), cfg), cfg, p, Manual(DoArchive(q, at, crash), p))
  {
    assert PathOk(s, cfg, q);
    if q in s.w.db.entries && q in s.w.disk {
      if q == p {
        UploadSettles(s.w, cfg, p, at);
      } else {
        UploadToOther(s.w, cfg, q, p, s.w.disk[q].content, s.w.db.entries[q].meta.digest);
      }
    }
  }

  lemma CollectPaid(s: Sys, cfg: Config, gone: set<string>, p: Path)
    requires Inv(s, cfg) && Allowed(s, Collect(gone), cfg)
    ensures Paid(s.w, ActWorld(s.w, Collect(gone), cfg), cfg, p, 0)
  {
    assert PathOk(s, cfg, p);
  }

  /** Acts that leave the bucket alone. */
  lemma OtherPaid(w: World, w': World, cfg: Config, p: Path)
    requires w'.remote == w.remote
    ensures Paid(w, w', cfg, p, 0)
  {}

  lemma PaidStep(s: Sys, a: Act, cfg: Config, p: Path)
    requires Inv(s, cfg) && Allowed(s, a, cfg) && NeverEmpty(cfg.hash) && Relative(p)
    ensures Paid(s.w, Next(s, a, cfg).w, cfg, p, Manual(a, p))
  {
    match a
    case TryArchive(q, at, crash) => TryArchivePaid(s, cfg, q, at, crash, p);
    case DoArchive(q, at, crash) => ArchivePaid(s, cfg, q, at, crash, p);
    case Collect(gone) => CollectPaid(s, cfg, gone, p);
    case _ => OtherPaid(s.w, Next(s, a, cfg).w, cfg, p);
  }

  lemma {:induction false} UploadsPaid(s: Sys, acts: seq<Act>, cfg: Config, p: Path)
    requires Inv(s, cfg) && Legal(s, acts, cfg) && NeverEmpty(cfg.hash) && Relative(p)
    ensures Uploads(s, acts, cfg, p) <= Resets(s, acts, cfg, p) + Manuals(acts, p) + Due(s.w, cfg, p)
    decreases |acts|
  {
    if acts != [] {
      NextKeeps(s, acts[0], cfg);
      PaidStep(s, acts[0], cfg, p);
      UploadsPaid(Next(s, acts[0], cfg), acts[1..], cfg, p);
    }
  }

  /** When exactly an archive by the reconciler adds a version: on every file row that
      is not archived and has its file, whatever the head is. */
  lemma ArchiveAddsExactly(w: World, cfg: Config, p: Path, at: int)
    ensures |History(Archive(w, cfg, p, at).0.remote, KeyFor(cfg, p))|
            == |History(w.remote, KeyFor(cfg, p))|
             + (if p in w.db.entries && w.db.entries[p].meta.kind.File? && !w.db.entries[p].state.Archived?
                   && p in w.disk then 1 else 0)
  {}

  /** And an archiveOne: only if an upload is due besides. */
  lemma ArchiveOneAddsExactly(w: World, cfg: Config, p: Path, at: int)
    ensures |History(ArchiveOne(w, cfg, p, at).0.remote, KeyFor(cfg, p))|
            == |History(w.remote, KeyFor(cfg, p))|
             + (if Pending(w.db, p) && p in w.disk && Due(w, cfg, p) == 1 then 1 else 0)
  {}

  lemma TryArchiveTwice(w: World, cfg: Config, p: Path, at: int)
    requires Pending(w.db, p) && p in w.disk && w.db.entries[p].meta.digest != []
    ensures |History(ArchiveOne(w.(remote := Backup(w, cfg, p).0), cfg, p, at).0.remote, KeyFor(cfg, p))|
            == |History(w.remote, KeyFor(cfg, p))| + Due(w, cfg, p)
  {
    var crashed := w.(remote := Backup(w, cfg, p).0);
    UploadSettles(w, cfg, p, at);
    ArchiveOneAddsExactly(crashed, cfg, p, at);
  }

  lemma ArchiveTwice(w: World, cfg: Config, p: Path, at: int)
    requires Pending(w.db, p) && p in w.disk
    ensures |History(Archive(w.(remote := Archive(w, cfg, p, at).0.remote), cfg, p, at).0.remote, KeyFor(cfg, p))|
            == |History(w.remote, KeyFor(cfg, p))| + 2
  {
    ArchiveAddsExactly(w, cfg, p, at);
    ArchiveAddsExactly(w.(remote := Archive(w, cfg, p, at).0.remote), cfg, p, at);
  }

  lemma CrashActs(s: Sys, cfg: Config, p: Path, at: int)
    requires Pending(s.w.db, p)
    ensures Next(s, TryArchive(p, at, true), cfg).w == s.w.(remote := Backup(s.w, cfg, p).0)
    ensures Next(s, DoArchive(p, at, true), cfg).w == s.w.(remote := Archive(s.w, cfg, p, at).0.remote)
  {}

  lemma WholeActs(s: Sys, cfg: Config, p: Path, at: int)
    ensures Next(s, TryArchive(p, at, false), cfg).w == ArchiveOne(s.w, cfg, p, at).0
    ensures Next(s, DoArchive(p, at, false), cfg).w == Archive(s.w, cfg, p, at).0
  {}

  /** One retry after a crash between upload and stamp, both ways: archiveOne has
      uploaded once in all, or not at all if the head matched; the reconciler has
      uploaded twice. */
  lemma RetryAfterCrash(s: Sys, cfg: Config, p: Path, at: int)
    requires Inv(s, cfg) && p !in s.touched && Pending(s.w.db, p) && NeverEmpty(cfg.hash)
    ensures var key, n := KeyFor(cfg, p), |History(s.w.remote, KeyFor(cfg, p))|;
            var tried := Next(Next(s, TryArchive(p, at, true), cfg), TryArchive(p, at, false), cfg);
            var archived := Next(Next(s, DoArchive(p, at, true), cfg), DoArchive(p, at, false), cfg);
            && |History(tried.w.remote, key)| == n + Due(s.w, cfg, p)
            && |History(archived.w.remote, key)| == n + 2
  {
    PendingOnDisk(s, cfg, p);
    CrashActs(s, cfg, p, at);
    WholeActs(Next(s, TryArchive(p, at, true), cfg), cfg, p, at);
    WholeActs(Next(s, DoArchive(p, at, true), cfg), cfg, p, at);
    TryArchiveTwice(s.w, cfg, p, at);
    ArchiveTwice(s.w, cfg, p, at);
  }

  lemma PendingOnDisk(s: Sys, cfg: Config, p: Path)
    requires Inv(s, cfg) && p !in s.touched && Pending(s.w.db, p) && NeverEmpty(cfg.hash)
    ensures p in s.w.disk && s.w.db.entries[p].meta.digest != []
  {
    assert PathOk(s, cfg, p);
  }

  /** However often archiveOne is retried, and wherever it crashed, it uploads a
      key at most as often as the row was given a new digest. */
  lemma {:induction false} RetriesDoNotStack(s: Sys, acts: seq<Act>, cfg: Config, p: Path)
    requires Start(s, cfg) && Legal(s, acts, cfg) && NeverEmpty(cfg.hash) && Relative(p)
    ensures Uploads(s, acts, cfg, p) <= Resets(s, acts, cfg, p) + Manuals(acts, p)
  {
    UploadsPaid(s, acts, cfg, p);
  }
}
