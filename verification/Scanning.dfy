/** The hub's scanner: what a scan sees, and the changes it reports (scanner.go). */
module Scanning {
  import opened Types
  import opened ChangeLog
  import opened HubStore
  import opened Order

  datatype FileStat = FileStat(content: Bytes, mode: int, mtime: int)

  /** The visible regular files below the watched directory. */
  type Disk = map<Path, FileStat>

  datatype FileInfo = FileInfo(size: int, mode: int, mtime: int, digest: Digest)

  /** A file whose size and mtime match its tree row keeps the row's digest
      without being read. */
  function Reusable(tree: map<Path, Meta>, p: Path, f: FileStat): bool {
    && p in tree
    && tree[p].mtime == f.mtime && tree[p].size == |f.content|
    && tree[p].digest != []
  }

  function Info(tree: map<Path, Meta>, p: Path, f: FileStat, hash: Hasher): FileInfo {
    FileInfo(|f.content|, f.mode, f.mtime, if Reusable(tree, p, f) then tree[p].digest else hash(f.content))
  }

  function Scanned(disk: Disk, tree: map<Path, Meta>, hash: Hasher): map<Path, FileInfo> {
    map p | p in disk :: Info(tree, p, disk[p], hash)
  }

  method ScanAll(disk: Disk, tree: map<Path, Meta>, hash: Hasher) returns (scanned: map<Path, FileInfo>)
    ensures scanned == Scanned(disk, tree, hash)
  {
    scanned := map[];
    var todo := disk.Keys;
    while todo != {}
      invariant todo <= disk.Keys
      invariant scanned == map p | p in disk && p !in todo :: Info(tree, p, disk[p], hash)
      decreases todo
    {
      var p :| p in todo;
      scanned := scanned[p := Info(tree, p, disk[p], hash)];
      todo := todo - {p};
    }
  }

  // ---- Diff ---------------------------------------------------------------------

  /** Paths to create or update. */
  function Wanted(scanned: map<Path, FileInfo>, tree: map<Path, Meta>): set<Path> {
    set p | p in scanned && (p !in tree || tree[p].digest != scanned[p].digest)
  }

  /** Paths to delete. */
  function Gone(scanned: map<Path, FileInfo>, tree: map<Path, Meta>): set<Path> {
    tree.Keys - scanned.Keys
  }

  function MetaOf(info: FileInfo): Meta {
    Meta(File, info.digest, info.size, info.mode, info.mtime)
  }

  function WriteOf(p: Path, scanned: map<Path, FileInfo>, tree: map<Path, Meta>): ChangeEntry
    requires p in scanned
  {
    ChangeEntry(0, p, if p in tree then Update else Create, MetaOf(scanned[p]))
  }

  function DeleteOf(p: Path): ChangeEntry {
    ChangeEntry(0, p, Delete, Meta(File, [], 0, 0, 0))
  }

  function Paths(changes: seq<ChangeEntry>): seq<Path> {
    seq(|changes|, i requires 0 <= i < |changes| => changes[i].path)
  }

  /** All creates and updates in path order, then all deletes in path order. */
  ghost predicate IsDiff(changes: seq<ChangeEntry>, scanned: map<Path, FileInfo>, tree: map<Path, Meta>) {
    var n := |Wanted(scanned, tree)|;
    && n <= |changes|
    && Lists(Paths(changes[..n]), Wanted(scanned, tree))
    && Lists(Paths(changes[n..]), Gone(scanned, tree))
    && (forall i :: 0 <= i < n ==> changes[i].path in scanned && changes[i] == WriteOf(changes[i].path, scanned, tree))
    && (forall i :: n <= i < |changes| ==> changes[i] == DeleteOf(changes[i].path))
  }

  lemma {:induction false} ListingSize(paths: seq<Path>, s: set<Path>)
    requires Lists(paths, s)
    ensures |s| == |paths|
  {
    if paths != [] {
      assert paths[0] in Elements(paths);
      ListsTail(paths, s);
      ListingSize(paths[1..], s - {paths[0]});
    } else {
      assert s == {};
    }
  }

  method CollectWrites(scanned: map<Path, FileInfo>, tree: map<Path, Meta>) returns (writes: set<Path>)
    ensures writes == Wanted(scanned, tree)
  {
    writes := {};
    var todo := scanned.Keys;
    while todo != {}
      invariant todo <= scanned.Keys
      invariant writes == set p | p in scanned && p !in todo && (p !in tree || tree[p].digest != scanned[p].digest)
      decreases todo
    {
      var p :| p in todo;
      if p !in tree || tree[p].digest != scanned[p].digest {
        writes := writes + {p};
      }
      todo := todo - {p};
    }
  }

  method CollectDeletes(scanned: map<Path, FileInfo>, tree: map<Path, Meta>) returns (gone: set<Path>)
    ensures gone == Gone(scanned, tree)
  {
    gone := {};
    var todo := tree.Keys;
    while todo != {}
      invariant todo <= tree.Keys
      invariant gone == (tree.Keys - todo) - scanned.Keys
      decreases todo
    {
      var p :| p in todo;
      if p !in scanned {
        gone := gone + {p};
      }
      todo := todo - {p};
    }
  }

  lemma ReportIsDiff(up: seq<Path>, down: seq<Path>, creates: seq<ChangeEntry>, deletes: seq<ChangeEntry>,
                     scanned: map<Path, FileInfo>, tree: map<Path, Meta>)
    requires Lists(up, Wanted(scanned, tree)) && Lists(down, Gone(scanned, tree))
    requires |creates| == |up| && |deletes| == |down|
    requires forall i :: 0 <= i < |up| ==> up[i] in scanned && creates[i] == WriteOf(up[i], scanned, tree)
    requires forall i :: 0 <= i < |down| ==> deletes[i] == DeleteOf(down[i])
    ensures IsDiff(creates + deletes, scanned, tree)
  {
    ListingSize(up, Wanted(scanned, tree));
    var changes := creates + deletes;
    assert changes[..|up|] == creates && changes[|up|..] == deletes;
    assert Paths(creates) == up && Paths(deletes) == down;
  }

  method Diff(scanned: map<Path, FileInfo>, tree: map<Path, Meta>) returns (changes: seq<ChangeEntry>)
    ensures IsDiff(changes, scanned, tree)
  {
    var writes := CollectWrites(scanned, tree);
    var gone := CollectDeletes(scanned, tree);
    var up := SortedListing(writes);
    var down := SortedListing(gone);
    assert forall i :: 0 <= i < |up| ==> up[i] in Elements(up);
    var creates := seq(|up|, i requires 0 <= i < |up| => WriteOf(up[i], scanned, tree));
    var deletes := seq(|down|, i requires 0 <= i < |down| => DeleteOf(down[i]));
    ReportIsDiff(up, down, creates, deletes, scanned, tree);
    changes := creates + deletes;
  }

  /** The report is determined by what was scanned. */
  lemma DiffUnique(a: seq<ChangeEntry>, b: seq<ChangeEntry>, scanned: map<Path, FileInfo>, tree: map<Path, Meta>)
    requires IsDiff(a, scanned, tree) && IsDiff(b, scanned, tree)
    ensures a == b
  {
    var n := |Wanted(scanned, tree)|;
    ListsUnique(Paths(a[..n]), Paths(b[..n]), Wanted(scanned, tree));
    ListsUnique(Paths(a[n..]), Paths(b[n..]), Gone(scanned, tree));
    assert |a| == n + |Paths(a[n..])| && |b| == n + |Paths(b[n..])|;
    forall i | 0 <= i < |a| ensures a[i] == b[i] {
      if i < n {
        assert Paths(a[..n])[i] == a[i].path && Paths(b[..n])[i] == b[i].path;
      } else {
        assert Paths(a[n..])[i - n] == a[i].path && Paths(b[n..])[i - n] == b[i].path;
      }
    }
  }

  // ---- Appending a report --------------------------------------------------------------

  function AppendAll(db: Db, changes: seq<ChangeEntry>): Db
    decreases |changes|
  {
    if changes == [] then db else AppendAll(AppendDb(db, changes[0]), changes[1..])
  }

  lemma {:induction false} AppendAllKeeps(db: Db, changes: seq<ChangeEntry>)
    requires Consistent(db)
    ensures Consistent(AppendAll(db, changes))
    decreases |changes|
  {
    if changes != [] {
      AppendKeeps(db, changes[0]);
      AppendAllKeeps(AppendDb(db, changes[0]), changes[1..]);
    }
  }

  lemma {:induction false} AppendAllSnoc(db: Db, changes: seq<ChangeEntry>, e: ChangeEntry)
    ensures AppendAll(db, changes + [e]) == AppendDb(AppendAll(db, changes), e)
    decreases |changes|
  {
    if changes == [] {
      assert changes + [e] == [e];
    } else {
      assert (changes + [e])[1..] == changes[1..] + [e];
      AppendAllSnoc(AppendDb(db, changes[0]), changes[1..], e);
    }
  }

  ghost predicate SameRow(a: Entries, b: Entries, p: Path) {
    (p in a <==> p in b) && (p in a ==> a[p] == b[p])
  }

  /** A path no change mentions keeps its row. */
  lemma {:induction false} AppendAllElsewhere(db: Db, changes: seq<ChangeEntry>, p: Path)
    requires forall i :: 0 <= i < |changes| ==> changes[i].path != p
    ensures SameRow(AppendAll(db, changes).entries, db.entries, p)
    decreases |changes|
  {
    if changes != [] {
      AppendAllElsewhere(AppendDb(db, changes[0]), changes[1..], p);
    }
  }

  /** A path one change mentions gets the row that change gives it. */
  lemma {:induction false} AppendAllOnce(db: Db, changes: seq<ChangeEntry>, k: nat)
    requires k < |changes|
    requires forall i :: 0 <= i < |changes| && i != k ==> changes[i].path != changes[k].path
    ensures var p, after := changes[k].path, AppendAll(db, changes).entries;
            if changes[k].op.Delete? then p !in after
            else p in after && after[p] == Upsert(db.entries, changes[k]).(version := after[p].version)
    decreases |changes|
  {
    if k == 0 {
      AppendAllElsewhere(AppendDb(db, changes[0]), changes[1..], changes[0].path);
    } else {
      AppendAllOnce(AppendDb(db, changes[0]), changes[1..], k - 1);
    }
  }

  lemma {:induction false} NoRepeats(paths: seq<Path>, i: nat, j: nat)
    requires Ascending(paths) && i < |paths| && j < |paths| && i != j
    ensures paths[i] != paths[j]
  {
    LessTotal(paths[i], paths[j]);
  }

  lemma DiffDistinct(changes: seq<ChangeEntry>, scanned: map<Path, FileInfo>, tree: map<Path, Meta>, i: nat, j: nat)
    requires IsDiff(changes, scanned, tree) && i < |changes| && j < |changes| && i != j
    ensures changes[i].path != changes[j].path
  {
    var n := |Wanted(scanned, tree)|;
    DiffSide(changes, scanned, tree, i);
    DiffSide(changes, scanned, tree, j);
    if i < n && j < n {
      NoRepeats(Paths(changes[..n]), i, j);
    } else if i >= n && j >= n {
      NoRepeats(Paths(changes[n..]), i - n, j - n);
    }
  }

  /** The change at i is a write of a wanted path or a delete of a vanished one. */
  lemma DiffSide(changes: seq<ChangeEntry>, scanned: map<Path, FileInfo>, tree: map<Path, Meta>, i: nat)
    requires IsDiff(changes, scanned, tree) && i < |changes|
    ensures changes[i].op.Delete? ==> changes[i].path in Gone(scanned, tree) && i >= |Wanted(scanned, tree)|
    ensures !changes[i].op.Delete? ==>
      && i < |Wanted(scanned, tree)| && changes[i].path in Wanted(scanned, tree)
      && changes[i].meta == MetaOf(scanned[changes[i].path])
  {
    var n := |Wanted(scanned, tree)|;
    if i < n {
      assert Paths(changes[..n])[i] == changes[i].path;
      assert changes[i].path in Elements(Paths(changes[..n]));
    } else {
      assert Paths(changes[n..])[i - n] == changes[i].path;
      assert changes[i].path in Elements(Paths(changes[n..]));
    }
  }

  lemma DiffFinds(changes: seq<ChangeEntry>, scanned: map<Path, FileInfo>, tree: map<Path, Meta>,
                  p: Path) returns (k: nat)
    requires IsDiff(changes, scanned, tree)
    requires p in Wanted(scanned, tree) || p in Gone(scanned, tree)
    ensures k < |changes| && changes[k].path == p
    ensures changes[k].op.Delete? <==> p in Gone(scanned, tree)
  {
    var n := |Wanted(scanned, tree)|;
    if p in Wanted(scanned, tree) {
      assert p in Elements(Paths(changes[..n]));
      k :| 0 <= k < n && Paths(changes[..n])[k] == p;
    } else {
      assert p in Elements(Paths(changes[n..]));
      var j :| 0 <= j < |changes| - n && Paths(changes[n..])[j] == p;
      k := n + j;
    }
    DiffSide(changes, scanned, tree, k);
  }

  // ---- What a full scan achieves ------------------------------------------------------------

  /** The rows after a scan: exactly the scanned paths are rows that are not
      unpinned, with the scanned digests; a row whose file is gone from disk
      survives exactly if it was unpinned, untouched; one that reappeared is dirty. */
  ghost predicate ScanOutcome(before: Entries, after: Entries, scanned: map<Path, FileInfo>) {
    forall p ::
      && (p in after && !after[p].state.Unpinned? <==> p in scanned)
      && (p in scanned && p in after ==> after[p].meta.digest == scanned[p].digest)
      && (p in before && before[p].state.Unpinned? && p in scanned && p in after ==> after[p].state.Dirty?)
      && (p in after && after[p].state.Unpinned? ==> p in before && after[p] == before[p])
      && (p in before && before[p].state.Unpinned? && p !in scanned ==> p in after && after[p] == before[p])
  }

  lemma ScanAt(db: Db, changes: seq<ChangeEntry>, scanned: map<Path, FileInfo>, p: Path)
    requires IsDiff(changes, scanned, Baseline(db))
    ensures var after, tree := AppendAll(db, changes).entries, Baseline(db);
            && (p in Gone(scanned, tree) ==> p !in after)
            && (p in Wanted(scanned, tree) ==>
                 && p in after && !after[p].state.Unpinned? && after[p].meta == MetaOf(scanned[p])
                 && (p in db.entries ==> after[p].state.Dirty?))
            && (p !in Gone(scanned, tree) && p !in Wanted(scanned, tree) ==> SameRow(after, db.entries, p))
  {
    var tree := Baseline(db);
    if p in Gone(scanned, tree) || p in Wanted(scanned, tree) {
      var k := DiffFinds(changes, scanned, tree, p);
      DiffSide(changes, scanned, tree, k);
      forall i | 0 <= i < |changes| && i != k ensures changes[i].path != changes[k].path {
        DiffDistinct(changes, scanned, tree, i, k);
      }
      AppendAllOnce(db, changes, k);
    } else {
      forall i | 0 <= i < |changes| ensures changes[i].path != p {
        DiffSide(changes, scanned, tree, i);
      }
      AppendAllElsewhere(db, changes, p);
    }
  }

  lemma ScanConverges(db: Db, changes: seq<ChangeEntry>, scanned: map<Path, FileInfo>)
    requires IsDiff(changes, scanned, Baseline(db))
    ensures ScanOutcome(db.entries, AppendAll(db, changes).entries, scanned)
  {
    var after := AppendAll(db, changes).entries;
    forall p
      ensures p in after && !after[p].state.Unpinned? <==> p in scanned
      ensures p in scanned && p in after ==> after[p].meta.digest == scanned[p].digest
      ensures p in db.entries && db.entries[p].state.Unpinned? && p in scanned && p in after ==> after[p].state.Dirty?
      ensures p in after && after[p].state.Unpinned? ==> p in db.entries && after[p] == db.entries[p]
      ensures p in db.entries && db.entries[p].state.Unpinned? && p !in scanned ==>
        p in after && after[p] == db.entries[p]
    {
      ScanAt(db, changes, scanned, p);
    }
  }

  /** Scanning again right away reports nothing, whatever the digest cache did. */
  lemma RescanIsQuiet(db: Db, disk: Disk, hash: Hasher, changes: seq<ChangeEntry>, again: seq<ChangeEntry>)
    requires IsDiff(changes, Scanned(disk, Baseline(db), hash), Baseline(db))
    requires var db' := AppendAll(db, changes); IsDiff(again, Scanned(disk, Baseline(db'), hash), Baseline(db'))
    ensures again == []
  {
    var scanned, tree := Scanned(disk, Baseline(db), hash), Baseline(db);
    var db' := AppendAll(db, changes);
    var scanned', tree' := Scanned(disk, Baseline(db'), hash), Baseline(db');
    forall p ensures p !in Wanted(scanned', tree') && p !in Gone(scanned', tree') {
      ScanAt(db, changes, scanned, p);
    }
    assert Wanted(scanned', tree') == {} && Gone(scanned', tree') == {};
    if again != [] {
      DiffSide(again, scanned', tree', 0);
    }
  }

  // ---- When a file is read ------------------------------------------------------------------

  /** The file's modification time and size are those of its row. */
  ghost predicate SameStat(f: FileStat, row: Meta) {
    f.mtime == row.mtime && |f.content| == row.size
  }

  /** A file is read exactly unless its stat is its row's and that row has a digest;
      everything else is as the disk has it. */
  lemma ScannedExactly(disk: Disk, tree: map<Path, Meta>, hash: Hasher, p: Path)
    requires p in disk
    ensures var scanned := Scanned(disk, tree, hash);
            && scanned.Keys == disk.Keys
            && scanned[p].size == |disk[p].content| && scanned[p].mode == disk[p].mode
            && scanned[p].mtime == disk[p].mtime
            && (p !in tree || !SameStat(disk[p], tree[p]) || tree[p].digest == [] ==>
                scanned[p].digest == hash(disk[p].content))
            && (p in tree && SameStat(disk[p], tree[p]) && tree[p].digest != [] ==>
                scanned[p].digest == tree[p].digest)
  {}

  /** This entry is in the report, and nothing else about its path. */
  ghost predicate OnlyEntry(changes: seq<ChangeEntry>, e: ChangeEntry) {
    exists k :: 0 <= k < |changes| && changes[k] == e && OnlyAt(changes, k)
  }

  ghost predicate OnlyAt(changes: seq<ChangeEntry>, k: nat)
    requires k < |changes|
  {
    forall i :: 0 <= i < |changes| && i != k ==> changes[i].path != changes[k].path
  }

  ghost predicate NoEntry(changes: seq<ChangeEntry>, p: Path) {
    forall i :: 0 <= i < |changes| ==> changes[i].path != p
  }

  /** The row says nothing else of the file than its digest, or the stat hides it. */
  ghost predicate LooksTheSame(f: FileStat, row: Meta, hash: Hasher) {
    hash(f.content) == row.digest || (SameStat(f, row) && row.digest != [])
  }

  /** What a scan reports about a path: a new file, a file that differs and does not
      hide it, a file that is gone, and nothing else; each in one entry. */
  lemma ScanReports(disk: Disk, tree: map<Path, Meta>, hash: Hasher, changes: seq<ChangeEntry>, p: Path)
    requires IsDiff(changes, Scanned(disk, tree, hash), tree)
    ensures p in disk && p !in tree ==>
      OnlyEntry(changes, ChangeEntry(0, p, Create, Meta(File, hash(disk[p].content), |disk[p].content|, disk[p].mode,
                                                        disk[p].mtime)))
    ensures p in disk && p in tree && !LooksTheSame(disk[p], tree[p], hash) ==>
      OnlyEntry(changes, ChangeEntry(0, p, Update, Meta(File, hash(disk[p].content), |disk[p].content|, disk[p].mode,
                                                        disk[p].mtime)))
    ensures p !in disk && p in tree ==> OnlyEntry(changes, ChangeEntry(0, p, Delete, Meta(File, [], 0, 0, 0)))
    ensures (p in disk && p in tree && LooksTheSame(disk[p], tree[p], hash)) || (p !in disk && p !in tree) ==>
      NoEntry(changes, p)
  {
    var scanned := Scanned(disk, tree, hash);
    if p in Wanted(scanned, tree) || p in Gone(scanned, tree) {
      var k := DiffFinds(changes, scanned, tree, p);
      DiffSide(changes, scanned, tree, k);
      forall i | 0 <= i < |changes| && i != k ensures changes[i].path != changes[k].path {
        DiffDistinct(changes, scanned, tree, i, k);
      }
      assert OnlyAt(changes, k);
    } else {
      forall i | 0 <= i < |changes| ensures changes[i].path != p {
        DiffSide(changes, scanned, tree, i);
      }
    }
  }

  /** The log gains the report, entry by entry, at the next versions. */
  lemma {:induction false} ReportIsLogged(db: Db, changes: seq<ChangeEntry>)
    requires Dense(db.log)
    ensures var log' := AppendAll(db, changes).log;
            && |log'| == |db.log| + |changes| && log'[..|db.log|] == db.log
            && forall i :: 0 <= i < |changes| ==>
                 log'[|db.log| + i] == changes[i].(version := |db.log| + i + 1)
    decreases |changes|
  {
    if changes != [] {
      var first := AppendDb(db, changes[0]);
      ReportIsLogged(first, changes[1..]);
      var log' := AppendAll(db, changes).log;
      assert log'[..|db.log|] == log'[..|first.log|][..|db.log|];
      forall i | 0 <= i < |changes| ensures log'[|db.log| + i] == changes[i].(version := |db.log| + i + 1) {
        if i == 0 {
          assert log'[|db.log|] == log'[..|first.log|][|db.log|];
        } else {
          assert log'[|first.log| + (i - 1)] == changes[1..][i - 1].(version := |first.log| + (i - 1) + 1);
        }
      }
    }
  }

  /** An entry alone of its path in the report is logged, and nothing else about it. */
  lemma OnlyEntryLogged(db: Db, changes: seq<ChangeEntry>, e: ChangeEntry) returns (k: nat)
    requires Dense(db.log) && OnlyEntry(changes, e)
    ensures var log' := AppendAll(db, changes).log;
            && |db.log| <= k < |log'| && log'[k] == e.(version := k + 1)
            && forall i :: |db.log| <= i < |log'| && i != k ==> log'[i].path != e.path
  {
    ReportIsLogged(db, changes);
    var n: nat :| n < |changes| && changes[n] == e && OnlyAt(changes, n);
    k := |db.log| + n;
    var log' := AppendAll(db, changes).log;
    forall i | |db.log| <= i < |log'| && i != k ensures log'[i].path != e.path {
      assert log'[|db.log| + (i - |db.log|)] == changes[i - |db.log|].(version := i + 1);
    }
  }

  /** An edit that changes stat and digest of a tracked file is logged by the next
      scan, once, with the new digest. */
  lemma EditIsLogged(db: Db, disk: Disk, hash: Hasher, changes: seq<ChangeEntry>, p: Path) returns (k: nat)
    requires Dense(db.log) && IsDiff(changes, Scanned(disk, Baseline(db), hash), Baseline(db))
    requires p in disk && p in Baseline(db)
    requires disk[p].mtime != Baseline(db)[p].mtime || |disk[p].content| != Baseline(db)[p].size
    requires hash(disk[p].content) != Baseline(db)[p].digest
    ensures var log' := AppendAll(db, changes).log;
            && |db.log| <= k < |log'| && log'[k].path == p && log'[k].op.Update?
            && log'[k].meta.digest == hash(disk[p].content)
            && forall i :: |db.log| <= i < |log'| && i != k ==> log'[i].path != p
  {
    ScanReports(disk, Baseline(db), hash, changes, p);
    k := OnlyEntryLogged(db, changes, ChangeEntry(0, p, Update,
                                                  Meta(File, hash(disk[p].content), |disk[p].content|, disk[p].mode,
                                                       disk[p].mtime)));
  }

  /** Stat caching is honest: an unchanged size and mtime mean unchanged content. */
  ghost predicate Honest(disk: Disk, tree: map<Path, Meta>, hash: Hasher) {
    forall p :: p in disk && p in tree && SameStat(disk[p], tree[p]) && tree[p].digest != [] ==>
      tree[p].digest == hash(disk[p].content)
  }

  lemma HonestScan(disk: Disk, tree: map<Path, Meta>, hash: Hasher)
    requires Honest(disk, tree, hash)
    ensures forall p :: p in disk ==> Scanned(disk, tree, hash)[p].digest == hash(disk[p].content)
  {}
}
