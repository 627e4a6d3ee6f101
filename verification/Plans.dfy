/** What pin and unpin plans achieve, and what crashes leave behind (reconciler.go). */
module Plans {
  import opened Types
  import opened ChangeLog
  import opened HubStore
  import opened Remote
  import opened Scanning
  import opened Places
  import opened Push
  import opened Lifecycle
  import opened LifecycleRuns

  /** A reachable state in which the path exists, and its file is as last scanned
      or was never scanned. */
  ghost predicate Ready(s: Sys, cfg: Config, p: Path) {
    && Inv(s, cfg) && Relative(p)
    && (p in s.w.db.entries || p in s.w.disk)
    && (p in s.w.db.entries ==> p !in s.touched)
  }

  predicate AtUnpinned(s: Sys, p: Path) {
    p in s.w.db.entries && s.w.db.entries[p].state.Unpinned?
  }

  /** A file can be put at the path, if a pin is to put one there. */
  predicate HasRoom(s: Sys, p: Path) {
    AtUnpinned(s, p) ==> Free(s.w.disk, s.w.dirs, p)
  }

  function Pin(w: World, cfg: Config, p: Path, at: int): (World, Result) {
    match PlanPin(w, p)
    case None => (w, Err(NoLocalFile))
    case Some(steps) => Apply(w, cfg, p, steps, None, at)
  }

  function Unpin(w: World, cfg: Config, p: Path, at: int): (World, Result) {
    match PlanUnpin(w, p)
    case None => (w, Err(NoLocalFile))
    case Some(steps) => Apply(w, cfg, p, steps, None, at)
  }

  // ---- One step at a time -----------------------------------------------------------

  lemma Seeded(s: Sys, cfg: Config, p: Path)
    requires Ready(s, cfg, p) && p !in s.w.db.entries
    ensures var s' := Next(s, Seed(p), cfg);
            && SeedRow(s.w, cfg, p) == (s'.w, Ok) && Ready(s', cfg, p)
            && Pending(s'.w.db, p) && s'.w.disk == s.w.disk && s'.w.remote == s.w.remote
            && p in s'.source && s'.source[p] == s.w.disk[p].content
            && s'.w.db.entries[p].meta.digest == cfg.hash(s.w.disk[p].content)
  {
    NextKeeps(s, Seed(p), cfg);
  }

  lemma ArchivedNow(s: Sys, cfg: Config, p: Path, at: int)
    requires Ready(s, cfg, p) && Pending(s.w.db, p)
    ensures var s' := Next(s, DoArchive(p, at, false), cfg);
            && Archive(s.w, cfg, p, at) == (s'.w, Ok) && Ready(s', cfg, p)
            && p in s'.w.db.entries && s'.w.db.entries[p].state.Archived?
            && s'.w.db.entries[p].meta == s.w.db.entries[p].meta
            && s'.w.disk == s.w.disk && p in s.w.disk
            && p in s.source && p in s'.source && s'.source[p] == s.source[p]
            && HeadVersion(s'.w.remote, KeyFor(cfg, p)).Some?
            && HeadVersion(s'.w.remote, KeyFor(cfg, p)).value.data == s.w.disk[p].content
            && s'.w.db.entries[p].fileId == s.w.remote.counter + 1
  {
    assert PathOk(s, cfg, p);
    NextKeeps(s, DoArchive(p, at, false), cfg);
    UploadBecomesHead(s.w.remote, KeyFor(cfg, p), s.w.disk[p].content, s.w.db.entries[p].meta.digest, cfg.algo, "");
  }

  /** The one way an eviction of an archived, unedited path can fail: the content
      the row was taken from and the bytes on the head have one digest and two
      lengths. */
  ghost predicate SizeCollision(s: Sys, cfg: Config, p: Path) {
    && p in s.source && HeadVersion(s.w.remote, KeyFor(cfg, p)).Some?
    && Collide(cfg.hash, s.source[p], HeadVersion(s.w.remote, KeyFor(cfg, p)).value.data)
    && |s.source[p]| != |HeadVersion(s.w.remote, KeyFor(cfg, p)).value.data|
  }

  lemma EvictCheckReady(s: Sys, cfg: Config, p: Path)
    requires Ready(s, cfg, p) && p in s.w.db.entries && s.w.db.entries[p].state.Archived?
    ensures EvictCheck(s.w, cfg, p, None) == if SizeCollision(s, cfg, p) then Err(SizeDiffers) else Ok
  {
    assert PathOk(s, cfg, p);
    assert Genuine(HeadVersion(s.w.remote, KeyFor(cfg, p)).value, cfg.hash);
  }

  lemma EvictedNow(s: Sys, cfg: Config, p: Path)
    requires Ready(s, cfg, p) && p in s.w.db.entries && s.w.db.entries[p].state.Archived?
    requires !SizeCollision(s, cfg, p)
    ensures var s' := Next(s, DoEvict(p, None, false), cfg);
            && Evict(s.w, cfg, p, None, false) == (s'.w, Ok) && Ready(s', cfg, p)
            && p in s'.w.db.entries && s'.w.db.entries[p].state.Unpinned? && p !in s'.w.disk
            && s'.w.db.entries[p].meta == s.w.db.entries[p].meta
            && s'.w.remote == s.w.remote && Free(s'.w.disk, s'.w.dirs, p)
  {
    assert PathOk(s, cfg, p);
    EvictCheckReady(s, cfg, p);
    NextKeeps(s, DoEvict(p, None, false), cfg);
    UnlinkFrees(s.w.disk, s.w.dirs, p);
  }

  lemma RestoredNow(s: Sys, cfg: Config, p: Path, at: int)
    requires Ready(s, cfg, p) && AtUnpinned(s, p) && Free(s.w.disk, s.w.dirs, p)
    ensures var s' := Next(s, DoRestore(p, at), cfg);
            && Restore(s.w, cfg, p, at, false) == (s'.w, Ok) && Ready(s', cfg, p)
            && p in s'.w.db.entries && s'.w.db.entries[p].state.Archived? && p in s'.w.disk
            && s'.w.db.entries[p].meta == s.w.db.entries[p].meta
            && s'.w.disk[p].content == HeadVersion(s.w.remote, KeyFor(cfg, p)).value.data
            && s'.w.remote == s.w.remote
  {
    assert PathOk(s, cfg, p);
    NextKeeps(s, DoRestore(p, at), cfg);
  }

  lemma ApplyOne(w: World, cfg: Config, p: Path, a: Step, at: int)
    ensures Apply(w, cfg, p, [a], None, at) == Perform(w, cfg, p, a, None, at)
  {
    assert [a][1..] == [];
  }

  lemma ApplyTwo(w: World, cfg: Config, p: Path, a: Step, b: Step, at: int)
    requires Perform(w, cfg, p, a, None, at).1.Ok?
    ensures Apply(w, cfg, p, [a, b], None, at) == Perform(Perform(w, cfg, p, a, None, at).0, cfg, p, b, None, at)
  {
    assert [a, b][1..] == [b];
    ApplyOne(Perform(w, cfg, p, a, None, at).0, cfg, p, b, at);
  }

  lemma ApplyThree(w: World, cfg: Config, p: Path, a: Step, b: Step, c: Step, at: int)
    requires Perform(w, cfg, p, a, None, at).1.Ok?
    requires Perform(Perform(w, cfg, p, a, None, at).0, cfg, p, b, None, at).1.Ok?
    ensures Apply(w, cfg, p, [a, b, c], None, at)
         == Perform(Perform(Perform(w, cfg, p, a, None, at).0, cfg, p, b, None, at).0, cfg, p, c, None, at)
  {
    assert [a, b, c][1..] == [b, c];
    ApplyTwo(Perform(w, cfg, p, a, None, at).0, cfg, p, b, c, at);
  }

  // ---- Pin -------------------------------------------------------------------------------

  /** Whatever state the path starts in, a pin succeeds and ends archived, if the file
      of an unpinned row has room: the remote head and the local file both have the
      row's content. A local file keeps its bytes; one that lay beside an unpinned
      row is replaced by the head's bytes, which are the same or collide with them.
      Planning again finds nothing to do. */
  lemma PinReaches(s: Sys, cfg: Config, p: Path, at: int) returns (s': Sys)
    requires Ready(s, cfg, p) && HasRoom(s, p)
    ensures Pin(s.w, cfg, p, at) == (s'.w, Ok) && Ready(s', cfg, p)
    ensures p in s'.w.db.entries && s'.w.db.entries[p].state.Archived? && p in s'.w.disk
    ensures Backed(s'.w.remote, KeyFor(cfg, p), s'.w.db.entries[p], cfg)
    ensures cfg.hash(s'.w.disk[p].content) == s'.w.db.entries[p].meta.digest
    ensures p in s.w.db.entries ==> s'.w.db.entries[p].meta == s.w.db.entries[p].meta
    ensures p in s.w.disk && !(p in s.w.db.entries && s.w.db.entries[p].state.Unpinned?) ==> s'.w.disk == s.w.disk
    ensures p in s.w.disk ==>
      s'.w.disk[p].content == s.w.disk[p].content || Collide(cfg.hash, s'.w.disk[p].content, s.w.disk[p].content)
    ensures p in s.w.db.entries && s.w.db.entries[p].state.Unpinned? ==>
      s'.w.disk[p].content == HeadVersion(s.w.remote, KeyFor(cfg, p)).value.data
    ensures PlanPin(s'.w, p) == Some([StepNoOp])
  {
    assert PathOk(s, cfg, p);
    s' := s;
    if p !in s.w.db.entries {
      Seeded(s, cfg, p);
      s' := Next(s, Seed(p), cfg);
      ArchivedNow(s', cfg, p, at);
      s' := Next(s', DoArchive(p, at, false), cfg);
      ApplyTwo(s.w, cfg, p, StepSeed, StepArchive, at);
    } else if s.w.db.entries[p].state.Archived? {
      ApplyOne(s.w, cfg, p, StepNoOp, at);
    } else if s.w.db.entries[p].state.Unpinned? {
      RestoredNow(s, cfg, p, at);
      s' := Next(s, DoRestore(p, at), cfg);
      ApplyOne(s.w, cfg, p, StepRestore, at);
    } else {
      ArchivedNow(s, cfg, p, at);
      s' := Next(s, DoArchive(p, at, false), cfg);
      ApplyOne(s.w, cfg, p, StepArchive, at);
    }
    assert PathOk(s', cfg, p);
  }

  /** A pin succeeds exactly if the file of an unpinned row has room. */
  lemma PinExactly(s: Sys, cfg: Config, p: Path, at: int)
    requires Ready(s, cfg, p)
    ensures Pin(s.w, cfg, p, at).1.Ok? <==> HasRoom(s, p)
  {
    if HasRoom(s, p) {
      var s' := PinReaches(s, cfg, p, at);
    } else {
      ApplyOne(s.w, cfg, p, StepRestore, at);
    }
  }

  /** Below a file, a pin of an unpinned row changes nothing. */
  lemma PinBelowFile(s: Sys, cfg: Config, p: Path, at: int)
    requires Ready(s, cfg, p) && AtUnpinned(s, p) && FileAbove(s.w.disk, p)
    ensures Pin(s.w, cfg, p, at) == (s.w, Err(NoParent))
  {
    ApplyOne(s.w, cfg, p, StepRestore, at);
  }

  /** At a directory, a pin of an unpinned row fails after the row was marked: it says
      archived, there is no file, and the next scan deletes it. Then nothing claims
      its key any more, and a garbage collection may remove the last copy. */
  lemma PinOntoDirectoryLosesRow(s: Sys, cfg: Config, p: Path, at: int, changes: seq<ChangeEntry>)
    requires Ready(s, cfg, p) && AtUnpinned(s, p) && p in Directories(s.w.disk, s.w.dirs)
    requires var w' := Pin(s.w, cfg, p, at).0;
             IsDiff(changes, Scanned(w'.disk, Baseline(w'.db), cfg.hash), Baseline(w'.db))
    ensures var (w', r) := Pin(s.w, cfg, p, at);
            && r == Err(RenameFailed) && w'.disk == s.w.disk && w'.remote == s.w.remote
            && p in w'.db.entries && w'.db.entries[p].state.Archived? && p !in w'.disk
            && p !in AppendAll(w'.db, changes).entries
            && (forall q :: q in AppendAll(w'.db, changes).entries ==> KeyFor(cfg, q) != KeyFor(cfg, p))
  {
    StampedOnly(s, cfg, p, at);
    ApplyOne(s.w, cfg, p, StepRestore, at);
    var w' := Pin(s.w, cfg, p, at).0;
    FilelessRowGone(w', cfg, p, changes);
    ScannedKeysApart(s, cfg, w', changes, p);
  }

  /** A scan deletes a row that is not unpinned and has no file. */
  lemma FilelessRowGone(w: World, cfg: Config, p: Path, changes: seq<ChangeEntry>)
    requires p in w.db.entries && !w.db.entries[p].state.Unpinned? && p !in w.disk
    requires IsDiff(changes, Scanned(w.disk, Baseline(w.db), cfg.hash), Baseline(w.db))
    ensures p !in AppendAll(w.db, changes).entries
  {
    ScanAt(w.db, changes, Scanned(w.disk, Baseline(w.db), cfg.hash), p);
  }

  /** A path a scan leaves without a row has a key no row has. */
  lemma ScannedKeysApart(s: Sys, cfg: Config, w': World, changes: seq<ChangeEntry>, p: Path)
    requires Inv(s, cfg) && Relative(p) && w'.db.entries.Keys == s.w.db.entries.Keys && w'.disk == s.w.disk
    requires IsDiff(changes, Scanned(w'.disk, Baseline(w'.db), cfg.hash), Baseline(w'.db))
    requires p !in AppendAll(w'.db, changes).entries
    ensures forall q :: q in AppendAll(w'.db, changes).entries ==> KeyFor(cfg, q) != KeyFor(cfg, p)
  {
    forall q | q in AppendAll(w'.db, changes).entries ensures KeyFor(cfg, q) != KeyFor(cfg, p) {
      ScanAt(w'.db, changes, Scanned(w'.disk, Baseline(w'.db), cfg.hash), q);
      assert PathOk(s, cfg, q) && (q in s.w.db.entries || q in s.w.disk);
      if KeyFor(cfg, q) == KeyFor(cfg, p) {
        KeyInjective(cfg.prefix, q, p);
      }
    }
  }

  /** What a restore onto a directory does. */
  lemma StampedOnly(s: Sys, cfg: Config, p: Path, at: int)
    requires Ready(s, cfg, p) && AtUnpinned(s, p) && p in Directories(s.w.disk, s.w.dirs)
    ensures var (w', r) := Restore(s.w, cfg, p, at, false);
            && r == Err(RenameFailed) && w'.disk == s.w.disk && w'.remote == s.w.remote && p !in w'.disk
            && w'.db.entries.Keys == s.w.db.entries.Keys && w'.db.entries[p].state.Archived?
  {
    assert PathOk(s, cfg, p);
    if FileAbove(s.w.disk, p) {
      var a :| a in Above(p) * s.w.disk.Keys;
      AboveDirectory(s.w.disk, s.w.dirs, p, a);
    }
  }

  // ---- Unpin ------------------------------------------------------------------------------

  /** An unpin that worked: the row is unpinned, its content is on the head, and no
      local file is left, except one that already lay beside an unpinned row. If
      this unpin uploaded, the head's bytes are those of the local file. */
  ghost predicate UnpinDone(s: Sys, s': Sys, cfg: Config, p: Path) {
    && p in s'.w.db.entries && s'.w.db.entries[p].state.Unpinned?
    && Backed(s'.w.remote, KeyFor(cfg, p), s'.w.db.entries[p], cfg)
    && (p in s'.w.disk <==> p in s.w.disk && AtUnpinned(s, p))
    && (p in s.w.disk ==> Free(s'.w.disk, s'.w.dirs, p))
    && (p in s.w.db.entries ==> s'.w.db.entries[p].meta == s.w.db.entries[p].meta)
    && (p in s.w.disk ==> s'.w.db.entries[p].meta.digest == cfg.hash(s.w.disk[p].content))
    && (p in s.w.disk && (p !in s.w.db.entries || Pending(s.w.db, p)) ==>
         HeadVersion(s'.w.remote, KeyFor(cfg, p)).value.data == s.w.disk[p].content)
  }

  /** Whatever state the path starts in, an unpin either succeeds, and planning
      again finds nothing to do; or it fails on the size check with the row
      archived and the file in place, and then the content the row was taken from
      and the bytes on the head collide. */
  lemma UnpinReaches(s: Sys, cfg: Config, p: Path, at: int) returns (s': Sys)
    requires Ready(s, cfg, p)
    ensures Ready(s', cfg, p)
    ensures Unpin(s.w, cfg, p, at) == (s'.w, Ok) || Unpin(s.w, cfg, p, at) == (s'.w, Err(SizeDiffers))
    ensures Unpin(s.w, cfg, p, at).1.Ok? ==> UnpinDone(s, s', cfg, p) && PlanUnpin(s'.w, p) == Some([StepNoOp])
    ensures Unpin(s.w, cfg, p, at).1.Err? ==>
      && SizeCollision(s', cfg, p) && s'.w.disk == s.w.disk
      && p in s'.w.db.entries && s'.w.db.entries[p].state.Archived?
  {
    assert PathOk(s, cfg, p);
    if p !in s.w.db.entries {
      s' := UnpinFresh(s, cfg, p, at);
    } else if s.w.db.entries[p].state.Unpinned? {
      s' := s;
      ApplyOne(s.w, cfg, p, StepNoOp, at);
      if p in s.w.disk {
        FileIsFree(s.w.disk, s.w.dirs, p);
      }
    } else if s.w.db.entries[p].state.Archived? {
      s' := EvictOrCollide(s, cfg, p);
      ApplyOne(s.w, cfg, p, StepEvict, at);
    } else {
      s' := UnpinPending(s, cfg, p, at);
    }
    assert PathOk(s', cfg, p);
  }

  /** An eviction from an archived row. */
  lemma EvictOrCollide(s: Sys, cfg: Config, p: Path) returns (s': Sys)
    requires Ready(s, cfg, p) && p in s.w.db.entries && s.w.db.entries[p].state.Archived?
    ensures Ready(s', cfg, p) && s'.w.remote == s.w.remote
    ensures p in s'.w.db.entries && s'.w.db.entries[p].meta == s.w.db.entries[p].meta
    ensures p in s.w.disk && Free(s'.w.disk, s'.w.dirs, p)
    ensures if SizeCollision(s, cfg, p) then s' == s && Evict(s.w, cfg, p, None, false) == (s.w, Err(SizeDiffers))
            else && Evict(s.w, cfg, p, None, false) == (s'.w, Ok)
                 && s'.w.db.entries[p].state.Unpinned? && p !in s'.w.disk
  {
    assert PathOk(s, cfg, p);
    EvictCheckReady(s, cfg, p);
    FileIsFree(s.w.disk, s.w.dirs, p);
    s' := s;
    if !SizeCollision(s, cfg, p) {
      EvictedNow(s, cfg, p);
      s' := Next(s, DoEvict(p, None, false), cfg);
    }
  }

  /** A path without a row is seeded from the very bytes that are uploaded. */
  lemma UnpinFresh(s: Sys, cfg: Config, p: Path, at: int) returns (s': Sys)
    requires Ready(s, cfg, p) && p !in s.w.db.entries
    ensures Unpin(s.w, cfg, p, at) == (s'.w, Ok) && Ready(s', cfg, p)
    ensures p in s'.w.db.entries && s'.w.db.entries[p].state.Unpinned? && p !in s'.w.disk
    ensures s'.w.db.entries[p].meta.digest == cfg.hash(s.w.disk[p].content)
    ensures HeadVersion(s'.w.remote, KeyFor(cfg, p)).Some?
    ensures HeadVersion(s'.w.remote, KeyFor(cfg, p)).value.data == s.w.disk[p].content
    ensures Free(s'.w.disk, s'.w.dirs, p)
  {
    Seeded(s, cfg, p);
    var s1 := Next(s, Seed(p), cfg);
    ArchivedNow(s1, cfg, p, at);
    var s2 := Next(s1, DoArchive(p, at, false), cfg);
    s' := EvictOrCollide(s2, cfg, p);
    ApplyThree(s.w, cfg, p, StepSeed, StepArchive, StepEvict, at);
  }

  lemma UnpinPending(s: Sys, cfg: Config, p: Path, at: int) returns (s': Sys)
    requires Ready(s, cfg, p) && Pending(s.w.db, p)
    ensures Ready(s', cfg, p) && p in s.w.disk && Free(s'.w.disk, s'.w.dirs, p)
    ensures p in s'.w.db.entries && s'.w.db.entries[p].meta == s.w.db.entries[p].meta
    ensures HeadVersion(s'.w.remote, KeyFor(cfg, p)).Some?
    ensures HeadVersion(s'.w.remote, KeyFor(cfg, p)).value.data == s.w.disk[p].content
    ensures if p in s'.w.disk
            then && Unpin(s.w, cfg, p, at) == (s'.w, Err(SizeDiffers)) && SizeCollision(s', cfg, p)
                 && s'.w.db.entries[p].state.Archived? && s'.w.disk == s.w.disk
            else Unpin(s.w, cfg, p, at) == (s'.w, Ok) && s'.w.db.entries[p].state.Unpinned?
  {
    ArchivedNow(s, cfg, p, at);
    var s1 := Next(s, DoArchive(p, at, false), cfg);
    s' := EvictOrCollide(s1, cfg, p);
    ApplyTwo(s.w, cfg, p, StepArchive, StepEvict, at);
  }

  /** Unpin, then pin: if the unpin succeeds, so does the pin, and the bytes are
      back: the very same ones if the unpin uploaded them, and otherwise the same
      or two contents that collide. */
  lemma UnpinThenPinRestores(s: Sys, cfg: Config, p: Path, at: int, at': int)
    requires Ready(s, cfg, p) && p in s.w.disk && Unpin(s.w, cfg, p, at).1.Ok?
    ensures var (w2, r2) := Pin(Unpin(s.w, cfg, p, at).0, cfg, p, at');
            && r2.Ok? && p in w2.disk && p in w2.db.entries && w2.db.entries[p].state.Archived?
            && (w2.disk[p].content == s.w.disk[p].content || Collide(cfg.hash, w2.disk[p].content, s.w.disk[p].content))
            && (p !in s.w.db.entries || Pending(s.w.db, p) ==> w2.disk[p].content == s.w.disk[p].content)
  {
    var s1 := UnpinReaches(s, cfg, p, at);
    var s2 := PinReaches(s1, cfg, p, at');
  }

  // ---- Batches --------------------------------------------------------------------------------

  /** The listing says of the path's key what asking for its head would say now. */
  ghost predicate Listed(w: World, cfg: Config, heads: Heads, p: Path) {
    HeadSeen(w, cfg, p, Some(heads)) == HeadSeen(w, cfg, p, None)
  }

  lemma ListingIsHead(w: World, cfg: Config, p: Path)
    ensures Listed(w, cfg, HeadsOf(w.remote), p)
  {}

  /** Archive-then-evict against a listing from before the upload never evicts: the row
      stays archived and the file stays. */
  lemma StaleListingNeverEvicts(s: Sys, cfg: Config, heads: Heads, p: Path, at: int)
    requires Ready(s, cfg, p) && Pending(s.w.db, p) && Listed(s.w, cfg, heads, p)
    ensures var (w', r) := Apply(s.w, cfg, p, [StepArchive, StepEvict], Some(heads), at);
            && (r == Err(FileIdDiffers) || r == Err(NotFoundRemotely))
            && w' == Next(s, DoArchive(p, at, false), cfg).w && w'.disk == s.w.disk
            && p in w'.db.entries && w'.db.entries[p].state.Archived?
  {
    ArchivedNow(s, cfg, p, at);
    WellFormedOwns(s.w.remote);
    var (w1, _) := Archive(s.w, cfg, p, at);
    assert EvictCheck(w1, cfg, p, Some(heads)) == Err(FileIdDiffers)
      || EvictCheck(w1, cfg, p, Some(heads)) == Err(NotFoundRemotely);
    assert [StepArchive, StepEvict][1..] == [StepEvict];
    var (w2, r2) := Evict(w1, cfg, p, Some(heads), false);
    assert Apply(w1, cfg, p, [StepEvict], Some(heads), at) == (w2, r2);
  }

  /** What a batch unpin can do about a path: the row was archived or unpinned
      beforehand, and no two lengths of one digest are in the way. */
  ghost predicate Unpinnable(s: Sys, cfg: Config, p: Path) {
    p in s.w.db.entries && (AtUnpinned(s, p) || (s.w.db.entries[p].state.Archived? && !SizeCollision(s, cfg, p)))
  }

  /** Nothing about q changed but, perhaps, what its row's source is if it has none. */
  ghost predicate Unmoved(s: Sys, s': Sys, cfg: Config, q: Path) {
    && SameThere(s.w, s'.w, cfg, q) && (q in s.touched <==> q in s'.touched)
    && (q in s.w.db.entries && q in s.source ==> q in s'.source && s'.source[q] == s.source[q])
  }

  /** What leaves row, head and file of q alone, and q's being touched, leaves q unmoved. */
  lemma SameUnmoved(s: Sys, a: Act, cfg: Config, q: Path)
    requires SameThere(s.w, Next(s, a, cfg).w, cfg, q)
    requires q in s.touched <==> q in Touched(s, a, cfg)
    ensures Unmoved(s, Next(s, a, cfg), cfg, q)
  {}

  /** The acts of a batch unpin. */
  predicate ActsOn(a: Act, p: Path) {
    a == Seed(p) || (a.DoArchive? && a.path == p && !a.crash) || (a.DoEvict? && a.path == p && !a.crash)
  }

  lemma ArchiveElsewhere(w: World, cfg: Config, p: Path, at: int, q: Path)
    requires q != p && Relative(p) && Relative(q)
    ensures SameThere(w, Archive(w, cfg, p, at).0, cfg, q)
  {
    if p in w.disk && p in w.db.entries {
      UploadElsewhere(w, cfg, p, w.disk[p].content, w.db.entries[p].meta.digest, q);
    }
  }

  lemma StepUnmoved(s: Sys, cfg: Config, a: Act, p: Path, q: Path)
    requires q != p && Relative(p) && Relative(q) && ActsOn(a, p)
    ensures Unmoved(s, Next(s, a, cfg), cfg, q)
  {
    match a {
      case DoArchive(_, at, _) => ArchiveElsewhere(s.w, cfg, p, at, q);
      case DoEvict(_, lookup, _) => EvictElsewhere(s.w, cfg, p, lookup, false, q);
      case Seed(_) => assert SameThere(s.w, SeedRow(s.w, cfg, p).0, cfg, q);
      case _ =>
    }
    SameUnmoved(s, a, cfg, q);
  }

  lemma UnmovedKeeps(s: Sys, s': Sys, cfg: Config, heads: Heads, q: Path)
    requires Ready(s, cfg, q) && Inv(s', cfg) && Unmoved(s, s', cfg, q)
    ensures Ready(s', cfg, q) && (Unpinnable(s', cfg, q) <==> Unpinnable(s, cfg, q))
    ensures Listed(s.w, cfg, heads, q) ==> Listed(s'.w, cfg, heads, q)
  {
    assert PathOk(s, cfg, q);
  }

  /** One path of a batch. */
  function UnpinListed(w: World, cfg: Config, p: Path, heads: Heads, at: int): (World, Result) {
    match PlanUnpin(w, p)
    case None => (w, Err(NoLocalFile))
    case Some(steps) => Apply(w, cfg, p, steps, Some(heads), at)
  }

  ghost predicate OthersUnmoved(s: Sys, s': Sys, cfg: Config, p: Path) {
    forall q :: q != p && Relative(q) ==> Unmoved(s, s', cfg, q)
  }

  lemma StepOthersUnmoved(s: Sys, cfg: Config, a: Act, p: Path)
    requires Inv(s, cfg) && Relative(p)
    requires ActsOn(a, p)
    ensures OthersUnmoved(s, Next(s, a, cfg), cfg, p)
  {
    forall q | q != p && Relative(q) ensures Unmoved(s, Next(s, a, cfg), cfg, q) {
      StepUnmoved(s, cfg, a, p, q);
    }
  }

  /** A path without a row: seeded and archived, and not evicted. */
  lemma UnpinListedFresh(s: Sys, cfg: Config, heads: Heads, p: Path, at: int) returns (s': Sys)
    requires Ready(s, cfg, p) && p !in s.w.db.entries && Listed(s.w, cfg, heads, p)
    ensures UnpinListed(s.w, cfg, p, heads, at).0 == s'.w && UnpinListed(s.w, cfg, p, heads, at).1.Err?
    ensures Inv(s', cfg) && OthersUnmoved(s, s', cfg, p)
  {
    Seeded(s, cfg, p);
    StepOthersUnmoved(s, cfg, Seed(p), p);
    var s1 := Next(s, Seed(p), cfg);
    StaleListingNeverEvicts(s1, cfg, heads, p, at);
    assert [StepSeed, StepArchive, StepEvict][1..] == [StepArchive, StepEvict];
    ArchivedNow(s1, cfg, p, at);
    StepOthersUnmoved(s1, cfg, DoArchive(p, at, false), p);
    s' := Next(s1, DoArchive(p, at, false), cfg);
    forall q | q != p && Relative(q) ensures Unmoved(s, s', cfg, q) {
      assert Unmoved(s, s1, cfg, q) && Unmoved(s1, s', cfg, q) && PathOk(s, cfg, q);
    }
  }

  /** An archived row: evicted as if its head had been asked for. */
  lemma UnpinListedArchived(s: Sys, cfg: Config, heads: Heads, p: Path, at: int) returns (s': Sys)
    requires Ready(s, cfg, p) && p in s.w.db.entries && s.w.db.entries[p].state.Archived?
    requires Listed(s.w, cfg, heads, p)
    ensures UnpinListed(s.w, cfg, p, heads, at).0 == s'.w
    ensures UnpinListed(s.w, cfg, p, heads, at).1.Ok? <==> !SizeCollision(s, cfg, p)
    ensures Inv(s', cfg) && OthersUnmoved(s, s', cfg, p)
  {
    assert [StepEvict][1..] == [];
    EvictCheckReady(s, cfg, p);
    s' := s;
    if !SizeCollision(s, cfg, p) {
      EvictedNow(s, cfg, p);
      assert Evict(s.w, cfg, p, Some(heads), false) == Evict(s.w, cfg, p, None, false);
      StepOthersUnmoved(s, cfg, DoEvict(p, None, false), p);
      s' := Next(s, DoEvict(p, None, false), cfg);
    }
  }

  lemma UnpinListedOne(s: Sys, cfg: Config, heads: Heads, p: Path, at: int) returns (s': Sys)
    requires Ready(s, cfg, p) && Listed(s.w, cfg, heads, p)
    ensures UnpinListed(s.w, cfg, p, heads, at).0 == s'.w
    ensures UnpinListed(s.w, cfg, p, heads, at).1.Ok? <==> Unpinnable(s, cfg, p)
    ensures Inv(s', cfg) && OthersUnmoved(s, s', cfg, p)
  {
    s' := s;
    assert PathOk(s, cfg, p);
    if p !in s.w.db.entries {
      s' := UnpinListedFresh(s, cfg, heads, p, at);
    } else if s.w.db.entries[p].state.Archived? {
      s' := UnpinListedArchived(s, cfg, heads, p, at);
    } else if AtUnpinned(s, p) {
      assert [StepNoOp][1..] == [];
    } else {
      StaleListingNeverEvicts(s, cfg, heads, p, at);
      ArchivedNow(s, cfg, p, at);
      StepOthersUnmoved(s, cfg, DoArchive(p, at, false), p);
      s' := Next(s, DoArchive(p, at, false), cfg);
    }
  }

  /** A batch: one listing, fetched beforehand, for all paths in turn. */
  function BatchUnpin(w: World, cfg: Config, paths: seq<Path>, heads: Heads, clock: Path -> int): (World, seq<Result>)
    decreases |paths|
  {
    if paths == [] then (w, [])
    else
      var (w1, r) := UnpinListed(w, cfg, paths[0], heads, clock(paths[0]));
      var (w2, rest) := BatchUnpin(w1, cfg, paths[1..], heads, clock);
      (w2, [r] + rest)
  }

  ghost predicate Unpins(s: Sys, cfg: Config, paths: seq<Path>, results: seq<Result>) {
    |results| == |paths| && forall i :: 0 <= i < |paths| ==> (results[i].Ok? <==> Unpinnable(s, cfg, paths[i]))
  }

  lemma RestUnmoved(s: Sys, s': Sys, cfg: Config, paths: seq<Path>, heads: Heads)
    requires paths != [] && forall i, j :: 0 <= i < j < |paths| ==> paths[i] != paths[j]
    requires forall i :: 0 <= i < |paths| ==> Ready(s, cfg, paths[i]) && Listed(s.w, cfg, heads, paths[i])
    requires Inv(s', cfg) && OthersUnmoved(s, s', cfg, paths[0])
    ensures forall i :: 0 <= i < |paths| - 1 ==>
      && Ready(s', cfg, paths[1..][i]) && Listed(s'.w, cfg, heads, paths[1..][i])
      && (Unpinnable(s', cfg, paths[1..][i]) <==> Unpinnable(s, cfg, paths[i + 1]))
  {
    forall i | 0 <= i < |paths| - 1
      ensures Ready(s', cfg, paths[1..][i]) && Listed(s'.w, cfg, heads, paths[1..][i])
      ensures Unpinnable(s', cfg, paths[1..][i]) <==> Unpinnable(s, cfg, paths[i + 1])
    {
      assert Unmoved(s, s', cfg, paths[i + 1]);
      UnmovedKeeps(s, s', cfg, heads, paths[i + 1]);
    }
  }

  /** A batch unpin, which fetches its listing before it uploads anything, succeeds on
      exactly those of its paths whose rows were archived or unpinned beforehand,
      whatever it uploads and evicts on the way. */
  lemma {:induction false} BatchUnpinExactly(s: Sys, cfg: Config, paths: seq<Path>, heads: Heads, clock: Path -> int)
    requires Inv(s, cfg) && forall i, j :: 0 <= i < j < |paths| ==> paths[i] != paths[j]
    requires forall i :: 0 <= i < |paths| ==> Ready(s, cfg, paths[i]) && Listed(s.w, cfg, heads, paths[i])
    ensures Unpins(s, cfg, paths, BatchUnpin(s.w, cfg, paths, heads, clock).1)
    decreases |paths|
  {
    if paths != [] {
      var s' := UnpinListedOne(s, cfg, heads, paths[0], clock(paths[0]));
      var rest := paths[1..];
      RestUnmoved(s, s', cfg, paths, heads);
      BatchUnpinExactly(s', cfg, rest, heads, clock);
    }
  }

  // ---- Crashes ---------------------------------------------------------------------------------

  /** A crash between the two halves of a restore: the row says archived, and it
      survives the next scan if and only if a file lies there already. */
  lemma RestoreCrashLosesRow(w: World, cfg: Config, p: Path, at: int, changes: seq<ChangeEntry>)
    requires Restore(w, cfg, p, at, true).1.Ok?
    requires var w' := Restore(w, cfg, p, at, true).0;
             IsDiff(changes, Scanned(w'.disk, Baseline(w'.db), cfg.hash), Baseline(w'.db))
    ensures var w' := Restore(w, cfg, p, at, true).0;
            p in w'.db.entries && (p in AppendAll(w'.db, changes).entries <==> p in w.disk)
  {
    var w' := Restore(w, cfg, p, at, true).0;
    ScanAt(w'.db, changes, Scanned(w'.disk, Baseline(w'.db), cfg.hash), p);
  }

  lemma EvictCrashed(s: Sys, cfg: Config, p: Path)
    requires Ready(s, cfg, p) && Evict(s.w, cfg, p, None, true).1.Ok?
    ensures var w' := Next(s, DoEvict(p, None, true), cfg).w;
            && p in s.w.db.entries && p in w'.db.entries && w'.db.entries[p].state.Unpinned?
            && w'.db.entries[p].meta == s.w.db.entries[p].meta && w'.disk == s.w.disk && p in w'.disk
            && cfg.hash(w'.disk[p].content) == s.w.db.entries[p].meta.digest
  {
    assert PathOk(s, cfg, p);
  }

  /** A scan makes an unpinned row with a file dirty, with the file's digest. */
  lemma ReappearedRowDirty(w: World, cfg: Config, p: Path, changes: seq<ChangeEntry>)
    requires p in w.db.entries && w.db.entries[p].state.Unpinned? && p in w.disk
    requires IsDiff(changes, Scanned(w.disk, Baseline(w.db), cfg.hash), Baseline(w.db))
    ensures var after := AppendAll(w.db, changes).entries;
            && p in after && after[p].state.Dirty? && after[p].meta.kind.File?
            && after[p].meta.digest == cfg.hash(w.disk[p].content)
  {
    var tree := Baseline(w.db);
    assert p in Wanted(Scanned(w.disk, tree, cfg.hash), tree);
    ScanAt(w.db, changes, Scanned(w.disk, tree, cfg.hash), p);
  }

  /** The scan after a crashed eviction finds the file beside the unpinned row. */
  lemma EvictCrashRescan(s: Sys, cfg: Config, p: Path, changes: seq<ChangeEntry>)
    requires Ready(s, cfg, p) && Evict(s.w, cfg, p, None, true).1.Ok?
    requires Allowed(Next(s, DoEvict(p, None, true), cfg), Scan(changes), cfg)
    ensures var s2 := Next(Next(s, DoEvict(p, None, true), cfg), Scan(changes), cfg);
            && p in s2.w.db.entries && p in s.w.db.entries
            && Pending(s2.w.db, p) && s2.w.db.entries[p].state.Dirty?
            && s2.w.db.entries[p].meta.digest == s.w.db.entries[p].meta.digest
  {
    EvictCrashed(s, cfg, p);
    ReappearedRowDirty(Next(s, DoEvict(p, None, true), cfg).w, cfg, p, changes);
  }

  lemma RecognisesHead(w: World, cfg: Config, p: Path, at: int)
    requires Pending(w.db, p)
    requires var head := Head(w.remote, KeyFor(cfg, p));
             head.Some? && HeadMatches(head.value, w.db.entries[p].meta.digest, cfg.algo)
    ensures var (w', outcome) := ArchiveOne(w, cfg, p, at);
            && outcome.HeadMatched? && w'.remote == w.remote && w'.disk == w.disk
            && p in w'.db.entries && w'.db.entries[p].state.Archived?
            && w'.db.entries[p].fileId == Head(w.remote, KeyFor(cfg, p)).value.fileId
            && w'.db.entries[p].meta == w.db.entries[p].meta
  {}

  /** A crash between the two halves of an eviction heals: the next scan finds the
      file beside the unpinned row and makes it dirty, and archiving it again
      recognises the head and uploads nothing. */
  lemma EvictCrashHeals(s: Sys, cfg: Config, p: Path, changes: seq<ChangeEntry>, at: int)
    requires Ready(s, cfg, p) && NeverEmpty(cfg.hash)
    requires Evict(s.w, cfg, p, None, true).1.Ok?
    requires Allowed(Next(s, DoEvict(p, None, true), cfg), Scan(changes), cfg)
    ensures var s2 := Next(Next(s, DoEvict(p, None, true), cfg), Scan(changes), cfg);
            var (w3, outcome) := ArchiveOne(s2.w, cfg, p, at);
            && p in s2.w.db.entries && s2.w.db.entries[p].state.Dirty?
            && outcome.HeadMatched? && w3.remote == s.w.remote && w3.disk == s.w.disk
            && p in w3.db.entries && w3.db.entries[p].state.Archived?
            && w3.db.entries[p].fileId == s.w.db.entries[p].fileId
            && w3.db.entries[p].meta.digest == s.w.db.entries[p].meta.digest
  {
    assert PathOk(s, cfg, p);
    EvictCrashRescan(s, cfg, p, changes);
    RecognisesHead(Next(Next(s, DoEvict(p, None, true), cfg), Scan(changes), cfg).w, cfg, p, at);
  }
}
