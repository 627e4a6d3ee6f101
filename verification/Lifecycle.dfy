/** Archiving, evicting and restoring one path (archive_one.go, reconciler.go). */
module Lifecycle {
  import opened Types
  import opened ChangeLog
  import opened HubStore
  import opened Remote
  import opened Scanning
  import opened Places
  import opened Push

  /** The hub's rows, the remote bucket, and the local files and directories. */
  datatype World = World(db: Db, remote: Bucket, disk: Disk, dirs: set<Path>)

  datatype Config = Config(prefix: string, hash: Hasher, algo: string)

  function KeyFor(cfg: Config, p: Path): string {
    JoinKey(cfg.prefix, p)
  }

  // ---- archiveOne -------------------------------------------------------------------

  /** The remote head carries the row's digest. */
  predicate HeadMatches(head: RemoteInfo, digest: Digest, algo: string) {
    && head.digest != [] && digest != []
    && (head.digestAlgo == "" || head.digestAlgo == algo)
    && head.digest == digest
  }

  datatype ArchiveOutcome = Skipped | HeadMatched(fileId: FileId) | Uploaded(fileId: FileId) | OpenFailed

  /** A file row that was never archived or changed since. */
  predicate Pending(db: Db, p: Path) {
    p in db.entries && db.entries[p].meta.kind.File? && (db.entries[p].state.Null? || db.entries[p].state.Dirty?)
  }

  /** Everything archiveOne does before it stamps the row: a crash in between
      leaves the bucket as it is here. */
  function Backup(w: World, cfg: Config, p: Path): (Bucket, ArchiveOutcome) {
    if !Pending(w.db, p) then (w.remote, Skipped)
    else
      var head, digest := Head(w.remote, KeyFor(cfg, p)), w.db.entries[p].meta.digest;
      if head.Some? && HeadMatches(head.value, digest, cfg.algo) then (w.remote, HeadMatched(head.value.fileId))
      else if p !in w.disk then (w.remote, OpenFailed)
      else (UploadTo(w.remote, KeyFor(cfg, p), w.disk[p].content, digest, cfg.algo), Uploaded(w.remote.counter + 1))
  }

  function ArchiveOne(w: World, cfg: Config, p: Path, at: int): (World, ArchiveOutcome) {
    var (remote, outcome) := Backup(w, cfg, p);
    if outcome.HeadMatched? || outcome.Uploaded? then
      (w.(db := MarkArchivedDb(w.db, p, outcome.fileId, [], at), remote := remote), outcome)
    else (w, outcome)
  }

  // ---- The reconciler's primitives ----------------------------------------------------

  datatype Fault =
    | NoRow | WrongState | NoLocalFile | NotFoundRemotely | FileIdDiffers | SizeDiffers | DigestDiffers
    | NoParent | RenameFailed | RemoveFailed

  datatype Result = Ok | Err(fault: Fault)

  function Archive(w: World, cfg: Config, p: Path, at: int): (World, Result) {
    if p !in w.db.entries || !w.db.entries[p].meta.kind.File? then (w, Err(NoRow))
    else if w.db.entries[p].state.Archived? then (w, Ok)
    else if p !in w.disk then (w, Err(NoLocalFile))
    else
      var remote := UploadTo(w.remote, KeyFor(cfg, p), w.disk[p].content, w.db.entries[p].meta.digest, cfg.algo);
      (w.(db := MarkArchivedDb(w.db, p, remote.counter, [], at), remote := remote), Ok)
  }

  /** The remote head as evict sees it: from a listing fetched earlier, or asked for now. */
  function HeadSeen(w: World, cfg: Config, p: Path, lookup: Option<Heads>): Option<RemoteInfo> {
    match lookup
    case None => Head(w.remote, KeyFor(cfg, p))
    case Some(heads) => if KeyFor(cfg, p) in heads then Some(heads[KeyFor(cfg, p)]) else None
  }

  /** Why evicting p is refused, if it is. */
  function EvictCheck(w: World, cfg: Config, p: Path, lookup: Option<Heads>): Result {
    if p !in w.db.entries then Err(NoRow)
    else if !w.db.entries[p].state.Archived? then Err(WrongState)
    else
      var row := w.db.entries[p];
      match HeadSeen(w, cfg, p, lookup)
      case None => Err(NotFoundRemotely)
      case Some(head) =>
        if head.fileId != row.fileId then Err(FileIdDiffers)
        else if head.size != row.meta.size then Err(SizeDiffers)
        else if head.digest != row.meta.digest then Err(DigestDiffers)
        else Ok
  }

  /** Evict: the row is marked first, and the file is unlinked then, which can fail if
      what is there is no longer a file. crash stops in between. */
  function Evict(w: World, cfg: Config, p: Path, lookup: Option<Heads>, crash: bool): (World, Result) {
    var check := EvictCheck(w, cfg, p, lookup);
    var marked := w.(db := MarkState(w.db, p, Unpinned));
    if check.Err? then (w, check)
    else if crash then (marked, Ok)
    else if CannotUnlink(w.disk, w.dirs, p) then (marked, Err(RemoveFailed))
    else
      var (disk, dirs) := Unlinked(w.disk, w.dirs, p);
      (marked.(disk := disk, dirs := dirs), Ok)
  }

  /** The bytes restore would put in place. */
  function RestoreCheck(w: World, cfg: Config, p: Path): (Bytes, Result) {
    if p !in w.db.entries then ([], Err(NoRow))
    else if !w.db.entries[p].state.Unpinned? then ([], Err(WrongState))
    else if FileAbove(w.disk, p) then ([], Err(NoParent))
    else
      match HeadVersion(w.remote, KeyFor(cfg, p))
      case None => ([], Err(NotFoundRemotely))
      case Some(v) => if cfg.hash(v.data) != w.db.entries[p].meta.digest then ([], Err(DigestDiffers)) else (v.data, Ok)
  }

  /** The permissions of a restored file: the row's, or a temporary file's. */
  function RestoredMode(row: HubEntry): int {
    if row.meta.mode != 0 then row.meta.mode else 0x180
  }

  /** The directories above p are made before anything is downloaded. */
  function WithParents(w: World, p: Path, check: Result): World {
    if check == Err(NoRow) || check == Err(WrongState) || check == Err(NoParent) then w
    else w.(dirs := Made(w.disk, w.dirs, p))
  }

  /** Restore: the row is marked first, and the download is renamed into place then,
      which fails if a directory is there. crash stops in between. */
  function Restore(w: World, cfg: Config, p: Path, at: int, crash: bool): (World, Result) {
    var (data, check) := RestoreCheck(w, cfg, p);
    var made := WithParents(w, p, check);
    if check.Err? then (made, check)
    else
      var row := w.db.entries[p];
      var stamped := made.(db := MarkArchivedDb(w.db, p, row.fileId, row.sha1, row.uploadedAt));
      if crash then (stamped, Ok)
      else if p in Directories(w.disk, w.dirs) then (stamped, Err(RenameFailed))
      else (stamped.(disk := w.disk[p := FileStat(data, RestoredMode(row), at)]), Ok)
  }

  function SeedEntry(p: Path, f: FileStat, hash: Hasher): ChangeEntry {
    ChangeEntry(0, p, Create, Meta(File, hash(f.content), |f.content|, f.mode, f.mtime))
  }

  function SeedRow(w: World, cfg: Config, p: Path): (World, Result) {
    if p !in w.disk then (w, Err(NoLocalFile))
    else (w.(db := AppendDb(w.db, SeedEntry(p, w.disk[p], cfg.hash))), Ok)
  }

  // ---- What each primitive leaves ----------------------------------------------------------

  /** Only the row of p changed, and this is it. */
  ghost predicate RowBecomes(w: World, w': World, p: Path, row: HubEntry) {
    w'.db == w.db.(entries := w.db.entries[p := row])
  }

  /** The head of the path's key holds the file, with its size, the row's digest and the
      hash's name, under an id not used before. */
  ghost predicate HeadHolds(w: World, w': World, cfg: Config, p: Path)
    requires p in w.disk && p in w.db.entries
  {
    HeadVersion(w'.remote, KeyFor(cfg, p))
    == Some(Version(RemoteInfo(w.remote.counter + 1, KeyFor(cfg, p), |w.disk[p].content|, w.db.entries[p].meta.digest,
                               cfg.algo), w.disk[p].content))
  }

  /** An archive by the reconciler: refused without a file row or a file, nothing to do
      if archived; otherwise uploaded and stamped with the new version and the time. */
  lemma ArchiveLeaves(w: World, cfg: Config, p: Path, at: int)
    ensures var (w', r) := Archive(w, cfg, p, at);
            var fileRow := p in w.db.entries && w.db.entries[p].meta.kind.File?;
            if !fileRow then w' == w && r == Err(NoRow)
            else if w.db.entries[p].state.Archived? then w' == w && r == Ok
            else if p !in w.disk then w' == w && r == Err(NoLocalFile)
            else && r == Ok && HeadHolds(w, w', cfg, p) && w'.disk == w.disk && w'.dirs == w.dirs
                 && RowBecomes(w, w', p, w.db.entries[p].(state := Archived, fileId := w.remote.counter + 1, sha1 := [],
                                                          uploadedAt := at))
  {}

  /** An archiveOne: stamped with the head it recognised or the version it uploaded. */
  lemma ArchiveOneLeaves(w: World, cfg: Config, p: Path, at: int)
    ensures var (w', outcome) := ArchiveOne(w, cfg, p, at);
            && (outcome.Skipped? <==> !Pending(w.db, p))
            && (outcome.Skipped? || outcome.OpenFailed? ==> w' == w)
            && (outcome.OpenFailed? ==> p !in w.disk)
            && (outcome.HeadMatched? || outcome.Uploaded? ==>
                 && p in w.db.entries && w'.disk == w.disk && w'.dirs == w.dirs
                 && RowBecomes(w, w', p, w.db.entries[p].(state := Archived, fileId := outcome.fileId, sha1 := [],
                                                          uploadedAt := at)))
            && (outcome.HeadMatched? ==>
                 && w'.remote == w.remote && Head(w.remote, KeyFor(cfg, p)).Some?
                 && Head(w.remote, KeyFor(cfg, p)).value.fileId == outcome.fileId
                 && Head(w.remote, KeyFor(cfg, p)).value.digest == w.db.entries[p].meta.digest != [])
            && (outcome.Uploaded? ==> p in w.disk && HeadHolds(w, w', cfg, p) && outcome.fileId == w.remote.counter + 1)
  {}

  /** An eviction succeeds exactly if the row is archived, the head seen is the recorded
      version with the row's size and digest, and what lies at the path can be removed;
      then the row is marked, with its columns, and no file is left. */
  lemma EvictExactly(w: World, cfg: Config, p: Path, lookup: Option<Heads>)
    ensures var (w', r) := Evict(w, cfg, p, lookup, false);
            && (r == Ok <==>
                 && p in w.db.entries && w.db.entries[p].state.Archived? && !CannotUnlink(w.disk, w.dirs, p)
                 && HeadSeen(w, cfg, p, lookup).Some?
                 && HeadSeen(w, cfg, p, lookup).value.fileId == w.db.entries[p].fileId
                 && HeadSeen(w, cfg, p, lookup).value.size == w.db.entries[p].meta.size
                 && HeadSeen(w, cfg, p, lookup).value.digest == w.db.entries[p].meta.digest)
            && (r == Ok ==> RowBecomes(w, w', p, w.db.entries[p].(state := Unpinned)) && p !in w'.disk)
            && w'.remote == w.remote
  {}

  /** A restore succeeds exactly if the row is unpinned, nothing is in the way, and the
      head's bytes have its digest; then the row is marked, with its columns, and the
      file has the bytes, the time, and the row's permissions or, if it has none, 0600. */
  lemma RestoreExactly(w: World, cfg: Config, p: Path, at: int)
    ensures var (w', r) := Restore(w, cfg, p, at, false);
            var head := HeadVersion(w.remote, KeyFor(cfg, p));
            && (r == Ok <==>
                 && p in w.db.entries && w.db.entries[p].state.Unpinned? && Free(w.disk, w.dirs, p)
                 && head.Some? && cfg.hash(head.value.data) == w.db.entries[p].meta.digest)
            && (r == Ok ==>
                 && RowBecomes(w, w', p, w.db.entries[p].(state := Archived))
                 && w'.disk == w.disk[p := FileStat(head.value.data, if w.db.entries[p].meta.mode != 0
                                                    then w.db.entries[p].meta.mode else 0x180, at)])
            && w'.remote == w.remote
  {}

  /** An eviction leaves every directory, the one the file lay in included. */
  lemma EvictLeavesDirectories(w: World, cfg: Config, p: Path, lookup: Option<Heads>, crash: bool)
    requires Treelike(w.disk, w.dirs) && p in w.disk
    ensures var w' := Evict(w, cfg, p, lookup, crash).0;
            Directories(w'.disk, w'.dirs) == Directories(w.disk, w.dirs)
  {
    UnlinkedExactly(w.disk, w.dirs, p);
  }

  /** A restore of an unpinned row makes the directories above the path, even if it
      fails afterwards. */
  lemma RestoreMakesDirectories(w: World, cfg: Config, p: Path, at: int, crash: bool)
    requires p in w.db.entries && w.db.entries[p].state.Unpinned? && !FileAbove(w.disk, p)
    ensures var w' := Restore(w, cfg, p, at, crash).0;
            Directories(w'.disk, w'.dirs) == Directories(w.disk, w.dirs) + Above(p)
  {
    MadeExactly(w.disk, w.dirs, p);
    PutDirectories(w.disk, Made(w.disk, w.dirs, p), p,
                   FileStat(RestoreCheck(w, cfg, p).0, RestoredMode(w.db.entries[p]), at));
  }

  lemma PutDirectories(files: Disk, dirs: set<Path>, p: Path, f: FileStat)
    requires Above(p) <= Directories(files, dirs)
    ensures Directories(files[p := f], dirs) == Directories(files, dirs)
  {
    DirectoriesWithin(files, dirs, files[p := f], dirs, p);
    forall d | d in Directories(files, dirs) ensures d in Directories(files[p := f], dirs) {
      if d !in dirs {
        var q :| q in files.Keys + dirs && d in Above(q);
        assert q in files[p := f].Keys + dirs;
      }
    }
  }

  /** A seeded row is logged as a create of the file that is there. */
  lemma SeedLeaves(w: World, cfg: Config, p: Path)
    requires Dense(w.db.log)
    ensures var (w', r) := SeedRow(w, cfg, p);
            if p !in w.disk then w' == w && r == Err(NoLocalFile)
            else && r == Ok && w'.remote == w.remote && w'.disk == w.disk
                 && w'.db.log == w.db.log + [ChangeEntry(|w.db.log| + 1, p, Create,
                                                         Meta(File, cfg.hash(w.disk[p].content), |w.disk[p].content|,
                                                              w.disk[p].mode, w.disk[p].mtime))]
  {}

  // ---- Plans -----------------------------------------------------------------------------

  datatype Step = StepSeed | StepArchive | StepEvict | StepRestore | StepNoOp

  /** Something lies at the path, be it a directory. */
  predicate Exists(w: World, p: Path) {
    p in w.disk || p in Directories(w.disk, w.dirs)
  }

  /** None: there is neither a row nor anything on disk. */
  function PlanPin(w: World, p: Path): Option<seq<Step>> {
    if p !in w.db.entries then (if Exists(w, p) then Some([StepSeed, StepArchive]) else None)
    else match w.db.entries[p].state
         case Archived => Some([StepNoOp])
         case Unpinned => Some([StepRestore])
         case _ => Some([StepArchive])
  }

  function PlanUnpin(w: World, p: Path): Option<seq<Step>> {
    if p !in w.db.entries then (if Exists(w, p) then Some([StepSeed, StepArchive, StepEvict]) else None)
    else match w.db.entries[p].state
         case Unpinned => Some([StepNoOp])
         case Archived => Some([StepEvict])
         case _ => Some([StepArchive, StepEvict])
  }

  function Perform(w: World, cfg: Config, p: Path, step: Step, lookup: Option<Heads>, at: int): (World, Result) {
    match step
    case StepNoOp => (w, Ok)
    case StepSeed => SeedRow(w, cfg, p)
    case StepArchive => Archive(w, cfg, p, at)
    case StepEvict => Evict(w, cfg, p, lookup, false)
    case StepRestore => Restore(w, cfg, p, at, false)
  }

  /** The steps in order, up to the first that fails. */
  function Apply(w: World, cfg: Config, p: Path, steps: seq<Step>, lookup: Option<Heads>, at: int): (World, Result)
    decreases |steps|
  {
    if steps == [] then (w, Ok)
    else
      var (w', r) := Perform(w, cfg, p, steps[0], lookup, at);
      if r.Err? then (w', r) else Apply(w', cfg, p, steps[1..], lookup, at)
  }

  /** A plan is refused only where there is neither a row nor anything on disk; where
      there is no row and no file but a directory, it fails at its first step. */
  lemma NothingToPlan(w: World, cfg: Config, p: Path, lookup: Option<Heads>, at: int)
    ensures PlanPin(w, p).None? <==> p !in w.db.entries && p !in w.disk && p !in Directories(w.disk, w.dirs)
    ensures PlanUnpin(w, p).None? <==> PlanPin(w, p).None?
    ensures p !in w.db.entries && p !in w.disk && p in Directories(w.disk, w.dirs) ==>
      && Apply(w, cfg, p, PlanPin(w, p).value, lookup, at) == (w, Err(NoLocalFile))
      && Apply(w, cfg, p, PlanUnpin(w, p).value, lookup, at) == (w, Err(NoLocalFile))
  {}

  /** A plan stops at the first step that fails, with what was done before it. */
  lemma {:induction false} StopsAtFailure(w: World, cfg: Config, p: Path, steps: seq<Step>, lookup: Option<Heads>,
                                          at: int, rest: seq<Step>)
    ensures Apply(w, cfg, p, steps + rest, lookup, at)
            == var (w', r) := Apply(w, cfg, p, steps, lookup, at);
               if r.Err? then (w', r) else Apply(w', cfg, p, rest, lookup, at)
    decreases |steps|
  {
    if steps == [] {
      assert steps + rest == rest;
    } else {
      var (w1, r) := Perform(w, cfg, p, steps[0], lookup, at);
      assert (steps + rest)[0] == steps[0] && (steps + rest)[1..] == steps[1..] + rest;
      if r.Ok? {
        StopsAtFailure(w1, cfg, p, steps[1..], lookup, at, rest);
      }
    }
  }

  /** One step. */
  lemma OneStep(w: World, cfg: Config, p: Path, step: Step, lookup: Option<Heads>, at: int)
    ensures Apply(w, cfg, p, [step], lookup, at)
            == match step
               case StepNoOp => (w, Ok)
               case StepSeed => SeedRow(w, cfg, p)
               case StepArchive => Archive(w, cfg, p, at)
               case StepEvict => Evict(w, cfg, p, lookup, false)
               case StepRestore => Restore(w, cfg, p, at, false)
  {
    assert [step][1..] == [];
  }

  // ---- The reconciler object ----------------------------------------------------------------

  class Reconciler {
    const store: Store
    const storage: Storage
    const dir: Directory
    const cfg: Config

    constructor (store: Store, storage: Storage, dir: Directory, cfg: Config)
      ensures this.store == store && this.storage == storage && this.dir == dir && this.cfg == cfg
    {
      this.store, this.storage, this.dir, this.cfg := store, storage, dir, cfg;
    }

    ghost function Value(): World
      reads store, storage, dir
    {
      World(store.Value(), storage.Value(), dir.files, dir.dirs)
    }

    method DoHeadMatches(head: RemoteInfo, digest: Digest, algo: string) returns (same: bool)
      ensures same <==> HeadMatches(head, digest, algo)
    {
      if |head.digest| == 0 || |digest| == 0 {
        return false;
      }
      if head.digestAlgo != "" && head.digestAlgo != algo {
        return false;
      }
      if |head.digest| != |digest| {
        return false;
      }
      for i := 0 to |digest|
        invariant head.digest[..i] == digest[..i]
      {
        if head.digest[i] != digest[i] {
          return false;
        }
        assert head.digest[..i + 1] == head.digest[..i] + [digest[i]] && digest[..i + 1] == digest[..i] + [digest[i]];
      }
      assert head.digest[..|digest|] == head.digest && digest[..|digest|] == digest;
      return true;
    }

    /** The shared core of the archive task and the archive worker. */
    method DoArchiveOne(p: Path, at: int) returns (outcome: ArchiveOutcome)
      modifies store, storage
      ensures (Value(), outcome) == ArchiveOne(old(Value()), cfg, p, at)
    {
      var entry := store.EntryLookup(p);
      if entry.None? || !entry.value.meta.kind.File? {
        return Skipped;
      }
      if entry.value.state.Archived? || entry.value.state.Unpinned? {
        return Skipped;
      }
      var key := JoinKey(cfg.prefix, p);
      var digest := entry.value.meta.digest;
      var head := storage.HeadByKey(key);
      if head.Some? {
        var same := DoHeadMatches(head.value, digest, cfg.algo);
        if same {
          store.MarkArchived(p, head.value.fileId, [], at);
          return HeadMatched(head.value.fileId);
        }
      }
      if p !in dir.files {
        return OpenFailed;
      }
      var info := storage.Upload(key, dir.files[p].content, digest, cfg.algo);
      store.MarkArchived(p, info.fileId, [], at);
      return Uploaded(info.fileId);
    }

    method DoArchive(p: Path, at: int) returns (r: Result)
      modifies store, storage
      ensures (Value(), r) == Archive(old(Value()), cfg, p, at)
    {
      var entry := store.EntryLookup(p);
      if entry.None? || !entry.value.meta.kind.File? {
        return Err(NoRow);
      }
      if entry.value.state.Archived? {
        return Ok;
      }
      if p !in dir.files {
        return Err(NoLocalFile);
      }
      var info := storage.Upload(JoinKey(cfg.prefix, p), dir.files[p].content, entry.value.meta.digest, cfg.algo);
      store.MarkArchived(p, info.fileId, [], at);
      return Ok;
    }

    method EvictWith(p: Path, lookup: Option<Heads>) returns (r: Result)
      modifies store, dir
      ensures (Value(), r) == Evict(old(Value()), cfg, p, lookup, false)
    {
      var entry := store.EntryLookup(p);
      if entry.None? {
        return Err(NoRow);
      }
      if !entry.value.state.Archived? {
        return Err(WrongState);
      }
      var key := JoinKey(cfg.prefix, p);
      var head: Option<RemoteInfo>;
      if lookup.Some? {
        head := if key in lookup.value then Some(lookup.value[key]) else None;
      } else {
        head := storage.HeadByKey(key);
      }
      if head.None? {
        return Err(NotFoundRemotely);
      }
      if head.value.fileId != entry.value.fileId {
        return Err(FileIdDiffers);
      }
      if head.value.size != entry.value.meta.size {
        return Err(SizeDiffers);
      }
      if head.value.digest != entry.value.meta.digest {
        return Err(DigestDiffers);
      }
      store.MarkUnpinned(p);
      var failed := dir.Remove(p);
      return if failed then Err(RemoveFailed) else Ok;
    }

    method DoRestore(p: Path, at: int) returns (r: Result)
      modifies store, dir
      ensures (Value(), r) == Restore(old(Value()), cfg, p, at, false)
    {
      var entry := store.EntryLookup(p);
      if entry.None? {
        return Err(NoRow);
      }
      if !entry.value.state.Unpinned? {
        return Err(WrongState);
      }
      var made := dir.MakeParents(p);
      if !made {
        return Err(NoParent);
      }
      var data := storage.Download(JoinKey(cfg.prefix, p));
      if data.None? {
        return Err(NotFoundRemotely);
      }
      if cfg.hash(data.value) != entry.value.meta.digest {
        return Err(DigestDiffers);
      }
      store.MarkArchived(p, entry.value.fileId, entry.value.sha1, entry.value.uploadedAt);
      MadeDirectories(old(dir.files), old(dir.dirs), p);
      var renamed := dir.Put(p, FileStat(data.value, RestoredMode(entry.value), at));
      return if renamed then Ok else Err(RenameFailed);
    }

    method DoSeedRow(p: Path) returns (r: Result)
      modifies store
      ensures (Value(), r) == SeedRow(old(Value()), cfg, p)
    {
      if p !in dir.files {
        return Err(NoLocalFile);
      }
      var f := dir.files[p];
      var version := store.Append(ChangeEntry(0, p, Create,
                                              Meta(File, cfg.hash(f.content), |f.content|, f.mode, f.mtime)));
      return Ok;
    }

    method DoPlanPin(p: Path) returns (plan: Option<seq<Step>>)
      ensures plan == PlanPin(Value(), p)
    {
      var entry := store.EntryLookup(p);
      if entry.None? {
        return if p in dir.files || p in Directories(dir.files, dir.dirs) then Some([StepSeed, StepArchive]) else None;
      }
      match entry.value.state
      case Archived => return Some([StepNoOp]);
      case Unpinned => return Some([StepRestore]);
      case _ => return Some([StepArchive]);
    }

    method DoPlanUnpin(p: Path) returns (plan: Option<seq<Step>>)
      ensures plan == PlanUnpin(Value(), p)
    {
      var entry := store.EntryLookup(p);
      if entry.None? {
        var there := p in dir.files || p in Directories(dir.files, dir.dirs);
        return if there then Some([StepSeed, StepArchive, StepEvict]) else None;
      }
      match entry.value.state
      case Unpinned => return Some([StepNoOp]);
      case Archived => return Some([StepEvict]);
      case _ => return Some([StepArchive, StepEvict]);
    }

    method DoPerform(p: Path, step: Step, lookup: Option<Heads>, at: int) returns (r: Result)
      modifies store, storage, dir
      ensures (Value(), r) == Perform(old(Value()), cfg, p, step, lookup, at)
    {
      match step
      case StepNoOp => r := Ok;
      case StepSeed => r := DoSeedRow(p);
      case StepArchive => r := DoArchive(p, at);
      case StepEvict => r := EvictWith(p, lookup);
      case StepRestore => r := DoRestore(p, at);
    }

    /** Run a plan, committing each step before the next. */
    method DoApply(p: Path, steps: seq<Step>, lookup: Option<Heads>, at: int) returns (r: Result)
      modifies store, storage, dir
      ensures (Value(), r) == Apply(old(Value()), cfg, p, steps, lookup, at)
    {
      for i := 0 to |steps|
        invariant Apply(Value(), cfg, p, steps[i..], lookup, at) == Apply(old(Value()), cfg, p, steps, lookup, at)
      {
        assert steps[i..][0] == steps[i] && steps[i..][1..] == steps[i + 1..];
        r := DoPerform(p, steps[i], lookup, at);
        if r.Err? {
          return;
        }
      }
      r := Ok;
    }
  }
}
