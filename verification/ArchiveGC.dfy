/** Garbage collection of remote objects no row claims (archive_gc.go). */
module ArchiveGC {
  import opened Types
  import opened ChangeLog
  import opened HubStore
  import opened Remote

  // ---- What is kept ----------------------------------------------------------------

  /** The hub-relative form of a key; empty when the key is outside the prefix. */
  function HubRel(prefix: string, key: string): string {
    if HasPrefix(key, prefix) then key[|prefix|..] else ""
  }

  ghost predicate DirClaimed(paths: set<Path>, hubRel: string) {
    exists p :: p in paths && HasPrefix(p, hubRel)
  }

  ghost predicate KeyClaimed(prefix: string, paths: set<Path>, key: string) {
    exists p :: p in paths && JoinKey(prefix, p) == key
  }

  /** Whether a listed entry is kept: directories by prefix, files by exact key. */
  ghost predicate EntryKept(prefix: string, paths: set<Path>, key: string, isDir: bool) {
    if isDir then HubRel(prefix, key) != "" && DirClaimed(paths, HubRel(prefix, key))
    else KeyClaimed(prefix, paths, key)
  }

  /** Whether an object below the list prefix survives a run. */
  ghost predicate Kept(prefix: string, list: string, paths: set<Path>, key: string)
    requires HasPrefix(key, list)
  {
    EntryKept(prefix, paths, Listed(list, true, key), Marker(list, key).Some?)
  }

  /** The objects below the list prefix, among those the done entries stand for,
      that a run means to remove. */
  ghost function Orphans(prefix: string, list: string, paths: set<Path>, heads: Heads, done: set<string>): set<string> {
    set k | k in heads && HasPrefix(k, list) && Listed(list, true, k) in done && !Kept(prefix, list, paths, k)
  }

  ghost function AllOrphans(prefix: string, list: string, paths: set<Path>, heads: Heads): set<string> {
    set k | k in heads && HasPrefix(k, list) && !Kept(prefix, list, paths, k)
  }

  function FilePaths(entries: Entries): set<Path> {
    set p | p in entries && entries[p].meta.kind.File?
  }

  // ---- Deletion safety -----------------------------------------------------------------

  /** No key of a claimed file is ever removed, whatever else is stored or claimed. */
  ghost predicate Safe(prefix: string, list: string) {
    forall paths: set<Path>, p: Path | p in paths && (forall q :: q in paths ==> Relative(q)) ::
      HasPrefix(JoinKey(prefix, p), list) ==> Kept(prefix, list, paths, JoinKey(prefix, p))
  }

  /** What an operator can check before running: a hub prefix ending in "/" must
      not be listed from above; one that does not end in "/" must not be listed
      from above, at its root, or inside. */
  predicate Guard(prefix: string, list: string) {
    if prefix == "" then true
    else if HasSuffix(prefix, "/") then !(HasPrefix(prefix, list) && list != prefix)
    else
      var root := prefix + "/";
      !HasPrefix(root, list) && !(HasPrefix(list, root) && list[|root|] != '/')
  }

  lemma ComparablePrefixes(s: string, a: string, b: string)
    requires HasPrefix(s, a) && HasPrefix(s, b)
    ensures |a| <= |b| ==> HasPrefix(b, a)
    ensures |b| <= |a| ==> HasPrefix(a, b)
  {
    if |a| <= |b| {
      assert b[..|a|] == s[..|b|][..|a|] == s[..|a|];
    } else {
      assert a[..|b|] == s[..|a|][..|b|] == s[..|b|];
    }
  }

  lemma SlashSuffix(s: string)
    ensures HasSuffix(s, "/") <==> s != "" && s[|s| - 1] == '/'
    ensures HasSuffix(s, "/") ==> TrimSuffix(s, "/") + "/" == s
  {
    if s != "" {
      assert s[|s| - 1..] == [s[|s| - 1]];
    }
  }

  /** A claimed path is below its own marker once that is made hub-relative. */
  lemma ClaimedBelowMarker(prefix: string, list: string, p: Path)
    requires HasPrefix(prefix + p, list) && HasPrefix(list, prefix) && Marker(list, prefix + p).Some?
    ensures var m := Marker(list, prefix + p).value;
            HubRel(prefix, m) != "" && HasPrefix(p, HubRel(prefix, m))
  {
    var key := prefix + p;
    MarkerShape(list, key);
    var m := Marker(list, key).value;
    assert m[..|prefix|] == m[..|list|][..|prefix|] == prefix;
    assert key[|prefix|..] == p;
    assert p[..|m| - |prefix|] == key[|prefix|..|m|] == key[..|m|][|prefix|..];
  }

  lemma GuardKeeps(prefix: string, list: string, paths: set<Path>, p: Path)
    requires Guard(prefix, list) && p in paths && Relative(p) && HasPrefix(JoinKey(prefix, p), list)
    ensures Kept(prefix, list, paths, JoinKey(prefix, p))
  {
    var key := JoinKey(prefix, p);
    KeyOfRelative(prefix, p);
    SlashSuffix(prefix);
    var root := Root(prefix);
    ComparablePrefixes(key, root, list);
    if prefix == "" || HasSuffix(prefix, "/") {
      assert root == prefix;
      if |list| <= |root| {
        assert HasPrefix(prefix, list);
        assert list == prefix;
      }
      if Marker(list, key).Some? {
        ClaimedBelowMarker(prefix, list, p);
      }
    }
  }

  /** Listing from above a "/"-terminated prefix: the marker is at most the prefix
      itself, so nothing below it counts as claimed. */
  lemma FromAbove(root: string, list: string, p: Path)
    requires root != "" && root[|root| - 1] == '/' && HasPrefix(root, list) && |list| < |root|
    ensures HasPrefix(root + p, list)
    ensures Marker(list, root + p).Some? && |Marker(list, root + p).value| <= |root|
    ensures HasPrefix(root + p, Marker(list, root + p).value)
  {
    var key := root + p;
    assert key[..|list|] == root[..|list|];
    MarkerShape(list, key);
    assert key[|root| - 1] == '/';
  }

  const WITNESS: Path := "x/y"

  lemma UnguardedSlash(prefix: string, list: string)
    requires HasSuffix(prefix, "/") && HasPrefix(prefix, list) && list != prefix
    ensures HasPrefix(JoinKey(prefix, WITNESS), list) && !Kept(prefix, list, {WITNESS}, JoinKey(prefix, WITNESS))
  {
    SlashSuffix(prefix);
    KeyOfRelative(prefix, WITNESS);
    FromAbove(prefix, list, WITNESS);
    var m := Marker(list, prefix + WITNESS).value;
    assert HubRel(prefix, m) == "";
  }

  /** No relative path starts with "/". */
  lemma NotBelowSlash(hubRel: string, p: Path)
    requires Relative(p) && hubRel != "" && hubRel[0] == '/'
    ensures !HasPrefix(p, hubRel)
  {}

  lemma UnguardedAbove(prefix: string, list: string)
    requires prefix != "" && !HasSuffix(prefix, "/") && HasPrefix(prefix + "/", list)
    ensures HasPrefix(JoinKey(prefix, WITNESS), list) && !Kept(prefix, list, {WITNESS}, JoinKey(prefix, WITNESS))
  {
    var root := prefix + "/";
    KeyOfRelative(prefix, WITNESS);
    var key := root + WITNESS;
    if |list| < |root| {
      FromAbove(root, list, WITNESS);
    } else {
      assert root[..|root|] == root;
      assert list == root;
      assert key[..|root|] == root;
      var m := root + "x/";
      assert key[..|m|] == m;
      assert forall j :: |root| <= j < |m| - 1 ==> key[j] == 'x';
      MarkerIs(root, key, m);
    }
    var m := Marker(list, key).value;
    if HasPrefix(m, prefix) && |m| > |prefix| {
      assert key[|prefix|] == '/';
      assert HubRel(prefix, m)[0] == '/';
      NotBelowSlash(HubRel(prefix, m), WITNESS);
    }
  }

  lemma UnguardedInside(prefix: string, list: string) returns (p: Path)
    requires prefix != "" && !HasSuffix(prefix, "/")
    requires HasPrefix(list, prefix + "/") && |list| > |prefix| + 1 && list[|prefix| + 1] != '/'
    ensures Relative(p) && HasPrefix(JoinKey(prefix, p), list) && !Kept(prefix, list, {p}, JoinKey(prefix, p))
  {
    var root := prefix + "/";
    p := list[|root|..] + WITNESS;
    KeyOfRelative(prefix, p);
    var key := root + p;
    assert key == list + WITNESS;
    var m := list + "x/";
    assert key[..|m|] == m && key[..|list|] == list;
    assert forall j :: |list| <= j < |m| - 1 ==> key[j] == 'x';
    MarkerIs(list, key, m);
    assert m[..|prefix|] == root[..|prefix|] == prefix;
    assert HubRel(prefix, m)[0] == root[|prefix|] == '/';
    NotBelowSlash(HubRel(prefix, m), p);
  }

  /** Deletion safety, exactly: a run with this hub prefix and list prefix spares
      every claimed key, for all rows and objects, if and only if the guard holds. */
  lemma SafeExactly(prefix: string, list: string)
    ensures Safe(prefix, list) <==> Guard(prefix, list)
  {
    if Guard(prefix, list) {
      forall paths: set<Path>, p: Path
        | p in paths && (forall q :: q in paths ==> Relative(q)) && HasPrefix(JoinKey(prefix, p), list)
        ensures Kept(prefix, list, paths, JoinKey(prefix, p))
      {
        GuardKeeps(prefix, list, paths, p);
      }
    } else {
      var p := Unguarded(prefix, list);
      var paths := {p};
      assert p in paths && forall q :: q in paths ==> Relative(q);
    }
  }

  lemma Unguarded(prefix: string, list: string) returns (p: Path)
    requires !Guard(prefix, list)
    ensures Relative(p) && HasPrefix(JoinKey(prefix, p), list) && !Kept(prefix, list, {p}, JoinKey(prefix, p))
  {
    p := WITNESS;
    if HasSuffix(prefix, "/") {
      UnguardedSlash(prefix, list);
    } else if HasPrefix(prefix + "/", list) {
      UnguardedAbove(prefix, list);
    } else {
      p := UnguardedInside(prefix, list);
    }
  }

  // ---- Accounting --------------------------------------------------------------------------

  ghost function TotalBytes(heads: Heads): nat
    decreases |heads|
  {
    if heads == map[] then 0
    else
      var k :| k in heads;
      assert |heads - {k}| < |heads| by { Shrinks(heads, k); }
      heads[k].size + TotalBytes(heads - {k})
  }

  lemma Shrinks(heads: Heads, k: string)
    requires k in heads
    ensures |heads - {k}| == |heads| - 1
  {
    assert (heads - {k}).Keys == heads.Keys - {k};
    assert |heads.Keys| == |heads|;
    assert |(heads - {k}).Keys| == |heads - {k}|;
  }

  lemma {:induction false} TotalBytesRemove(heads: Heads, k: string)
    requires k in heads
    ensures TotalBytes(heads) == heads[k].size + TotalBytes(heads - {k})
    decreases |heads|
  {
    var j :| j in heads && TotalBytes(heads) == heads[j].size + TotalBytes(heads - {j});
    if j != k {
      Shrinks(heads, j);
      Shrinks(heads, k);
      TotalBytesRemove(heads - {j}, k);
      TotalBytesRemove(heads - {k}, j);
      assert heads - {j} - {k} == heads - {k} - {j};
    }
  }

  /** n objects and bytes bytes went missing between two listings. */
  ghost predicate Accounts(before: Heads, after: Heads, n: nat, bytes: nat) {
    |before| == |after| + n && TotalBytes(before) == TotalBytes(after) + bytes
  }

  lemma AccountsOne(before: Heads, after: Heads, n: nat, bytes: nat, k: string)
    requires Accounts(before, after, n, bytes) && k in after
    ensures Accounts(before, after - {k}, n + 1, bytes + after[k].size)
  {
    Shrinks(after, k);
    TotalBytesRemove(after, k);
  }

  lemma AccountsTrans(a: Heads, b: Heads, c: Heads, n: nat, bytes: nat, n': nat, bytes': nat)
    requires Accounts(a, b, n, bytes) && Accounts(b, c, n', bytes')
    ensures Accounts(a, c, n + n', bytes + bytes')
  {}

  // ---- The run --------------------------------------------------------------------------------

  datatype Action = Keep | DeleteFile | DeleteSubtree

  datatype GcEntry = GcEntry(isDir: bool, key: string, path: string, claimed: bool, action: Action,
                             fileId: FileId, size: nat, deleted: bool, deletedN: nat, failed: bool)

  datatype Summary = Summary(orphanFiles: nat, orphanDirs: nat, keptFiles: nat, keptDirs: nat,
                             deletedFiles: nat, deletedBytes: nat, errors: nat)

  lemma HeadsOfMinus(versions: Versions, counter: nat, gone: set<string>)
    ensures HeadsOf(Bucket(versions - gone, counter)) == HeadsOf(Bucket(versions, counter)) - gone
  {}

  lemma OwnKeysMinus(heads: Heads, gone: set<string>)
    requires OwnKeys(heads)
    ensures OwnKeys(heads - gone)
  {}

  /** What has been decided for a listed entry. */
  ghost predicate Decided(e: GcEntry, ri: RemoteInfo, prefix: string, paths: set<Path>) {
    && e.key == ri.key && e.isDir == (HasSuffix(ri.key, "/") && ri.fileId == 0)
    && e.fileId == ri.fileId && e.size == ri.size
    && (e.claimed <==> e.action == Keep)
    && (e.action == Keep <==> EntryKept(prefix, paths, ri.key, e.isDir))
    && (e.action == DeleteSubtree ==> e.isDir) && (e.action == DeleteFile ==> !e.isDir)
  }

  class Collector {
    const store: Store
    const storage: Storage
    const prefix: string

    constructor (store: Store, storage: Storage, prefix: string)
      ensures this.store == store && this.storage == storage && this.prefix == prefix
    {
      this.store, this.storage, this.prefix := store, storage, prefix;
    }

    method CollectClaims() returns (fileKeys: set<string>, paths: seq<Path>)
      ensures forall p :: p in paths <==> p in FilePaths(store.entries)
      ensures forall k :: k in fileKeys <==> KeyClaimed(prefix, FilePaths(store.entries), k)
    {
      fileKeys, paths := {}, [];
      var todo := store.entries.Keys;
      while todo != {}
        invariant todo <= store.entries.Keys
        invariant forall p :: p in paths <==> p in store.entries.Keys - todo && store.entries[p].meta.kind.File?
        invariant forall k :: k in fileKeys <==> exists p :: p in paths && JoinKey(prefix, p) == k
        decreases todo
      {
        var p :| p in todo;
        todo := todo - {p};
        if store.entries[p].meta.kind.File? {
          ghost var before := paths;
          fileKeys := fileKeys + {JoinKey(prefix, p)};
          paths := paths + [p];
          assert forall q :: q in paths <==> q in before || q == p;
        }
      }
      assert forall p :: p in paths <==> p in FilePaths(store.entries);
    }

    method HasDirClaim(paths: seq<Path>, hubRel: string) returns (claimed: bool)
      ensures claimed <==> exists p :: p in paths && HasPrefix(p, hubRel)
    {
      for i := 0 to |paths|
        invariant forall j :: 0 <= j < i ==> !HasPrefix(paths[j], hubRel)
      {
        if HasPrefix(paths[i], hubRel) {
          return true;
        }
      }
      return false;
    }

    method Classify(ri: RemoteInfo, fileKeys: set<string>, paths: seq<Path>,
                    ghost claims: set<Path>) returns (e: GcEntry)
      requires forall p :: p in paths <==> p in claims
      requires forall k :: k in fileKeys <==> KeyClaimed(prefix, claims, k)
      ensures Decided(e, ri, prefix, claims)
      ensures e.path == HubRel(prefix, ri.key)
      ensures Untouched(e)
    {
      var key := ri.key;
      var isDir := HasSuffix(key, "/") && ri.fileId == 0;
      var hubRel := "";
      if HasPrefix(key, prefix) {
        hubRel := key[|prefix|..];
      }
      var claimed := key in fileKeys;
      if isDir {
        claimed := false;
        if hubRel != "" {
          claimed := HasDirClaim(paths, hubRel);
        }
      }
      var action := if claimed then Keep else if isDir then DeleteSubtree else DeleteFile;
      e := GcEntry(isDir, key, hubRel, claimed, action, ri.fileId, ri.size, false, 0, false);
    }

    /** Delete one listed object and book it. */
    method SweepOne(key: string, fileId: FileId, size: nat, count: nat, bytes: nat, failed: bool,
                    ghost before: Versions, ghost done: set<string>)
        returns (count': nat, bytes': nat, failed': bool)
      requires Swept(before, storage.versions, storage.counter, storage.stuck, done, count, bytes, failed)
      requires IsHead(HeadsOf(Bucket(before, storage.counter)), key, fileId, size)
      requires key !in done && fileId != 0
      modifies storage`versions
      ensures Swept(before, storage.versions, storage.counter, storage.stuck, done + {key}, count', bytes', failed')
      ensures (count' == count + 1 && failed' == failed) || (count' == count && failed')
    {
      StillThere(before, storage.counter, done - storage.stuck, key);
      SweepHitOrMiss(before, storage.versions, storage.counter, storage.stuck, done, count, bytes, failed, key);
      var ok := storage.DeleteByKey(key, fileId);
      if !ok {
        return count, bytes, true;
      }
      return count + 1, bytes + size, failed;
    }

    /** One entry of a flat listing. */
    method SweepListed(entries: seq<RemoteInfo>, i: nat, count: nat, bytes: nat, failed: bool,
                       ghost before: Versions, ghost m: string)
        returns (count': nat, bytes': nat, failed': bool)
      requires OwnKeys(HeadsOf(Bucket(before, storage.counter))) && i < |entries|
      requires IsListing(entries, HeadsOf(Bucket(before, storage.counter)), m, false)
      requires Swept(before, storage.versions, storage.counter, storage.stuck, KeysOf(entries[..i]), count, bytes,
                     failed)
      modifies storage`versions
      ensures Swept(before, storage.versions, storage.counter, storage.stuck, KeysOf(entries[..i + 1]), count', bytes',
                    failed')
    {
      var ri := entries[i];
      ghost var k := ListingSound(entries, HeadsOf(Bucket(before, storage.counter)), m, false, i);
      NextEntry(entries, i);
      if ri.fileId == 0 {
        return count, bytes, failed;
      }
      count', bytes', failed' := SweepOne(ri.key, ri.fileId, ri.size, count, bytes, failed, before,
                                          KeysOf(entries[..i]));
    }

    /** Delete everything below a marker, going on past failures. */
    method DoDeleteSubtree(m: string) returns (count: nat, bytes: nat, failed: bool)
      requires OwnKeys(HeadsOf(storage.Value()))
      modifies storage`versions
      ensures Swept(old(storage.versions), storage.versions, storage.counter, storage.stuck,
                    KeysBelow(HeadsOf(old(storage.Value())), m), count, bytes, failed)
    {
      ghost var heads, versions := HeadsOf(storage.Value()), storage.versions;
      count, bytes, failed := 0, 0, false;
      var entries := storage.ListKeys(m, false);
      SweptNothing(versions, storage.counter, storage.stuck);
      assert KeysOf(entries[..0]) == {};
      for i := 0 to |entries|
        invariant Swept(versions, storage.versions, storage.counter, storage.stuck, KeysOf(entries[..i]), count, bytes,
                        failed)
      {
        count, bytes, failed := SweepListed(entries, i, count, bytes, failed, versions, m);
      }
      assert entries[..|entries|] == entries;
      FlatDone(entries, heads, m);
    }

    /** Delete what an entry aims at. */
    method Attempt(e: GcEntry) returns (count: nat, bytes: nat, failed: bool)
      requires OwnKeys(HeadsOf(storage.Value()))
      requires e.action == DeleteFile ==> e.fileId != 0 && IsHead(HeadsOf(storage.Value()), e.key, e.fileId, e.size)
      modifies storage`versions
      ensures Swept(old(storage.versions), storage.versions, storage.counter, storage.stuck,
                    Targets(e, HeadsOf(old(storage.Value()))), count, bytes, failed)
      ensures Plausible(e, count, failed)
    {
      SweptNothing(storage.versions, storage.counter, storage.stuck);
      if e.action == DeleteFile {
        count, bytes, failed := SweepOne(e.key, e.fileId, e.size, 0, 0, false, storage.versions, {});
        assert {} + {e.key} == {e.key};
      } else if e.action == DeleteSubtree {
        count, bytes, failed := DoDeleteSubtree(e.key);
      } else {
        count, bytes, failed := 0, 0, false;
      }
    }

    /** Carry out the decision of one entry and book it. */
    method Act(e: GcEntry, s: Summary, ghost before: Versions, ghost orphans: set<string>)
        returns (e': GcEntry, s': Summary)
      requires Progress(before, storage.versions, storage.counter, storage.stuck, orphans, s)
      requires OwnKeys(HeadsOf(storage.Value())) && Untouched(e)
      requires e.action == DeleteFile ==> e.fileId != 0 && IsHead(HeadsOf(storage.Value()), e.key, e.fileId, e.size)
      modifies storage`versions
      ensures Progress(before, storage.versions, storage.counter, storage.stuck,
                       orphans + Targets(e, HeadsOf(old(storage.Value()))), s')
      ensures SameVerdict(e', e) && SameCounts(s', s) && Agree(e', s, s', false)
    {
      ghost var middle := storage.versions;
      ghost var group := Targets(e, HeadsOf(storage.Value()));
      var count, bytes, failed := Attempt(e);
      BookedProgress(before, middle, storage.versions, storage.counter, storage.stuck, orphans, group, s, count, bytes,
                     failed);
      MarkedAgrees(e, s, count, bytes, failed);
      e' := Marked(e, count, failed);
      s' := Booked(s, count, bytes, failed);
    }

    /** One listed entry: classify it, and unless dry act on it. */
    method RunEntry(entries: seq<RemoteInfo>, i: nat, dry: bool, s: Summary, fileKeys: set<string>, paths: seq<Path>,
                    ghost list: string, ghost before: Versions, ghost claims: set<Path>)
        returns (e: GcEntry, s': Summary)
      requires OwnKeys(HeadsOf(Bucket(before, storage.counter)))
      requires IsListing(entries, HeadsOf(Bucket(before, storage.counter)), list, true) && i < |entries|
      requires forall p :: p in paths <==> p in claims
      requires forall k :: k in fileKeys <==> KeyClaimed(prefix, claims, k)
      requires RunState(dry, before, storage.versions, storage.counter, storage.stuck, prefix, list, claims,
                        KeysOf(entries[..i]), s)
      modifies storage`versions
      ensures RunState(dry, before, storage.versions, storage.counter, storage.stuck, prefix, list, claims,
                       KeysOf(entries[..i + 1]), s')
      ensures Decided(e, entries[i], prefix, claims) && SameCounts(s', s) && Agree(e, s, s', dry)
    {
      e := Classify(entries[i], fileKeys, paths, claims);
      s' := s;
      if !dry {
        ghost var heads := HeadsOf(Bucket(before, storage.counter));
        NextEntry(entries, i);
        OrphansStep(prefix, list, claims, entries, heads, before, storage.versions, storage.counter, storage.stuck, i,
                    e);
        e, s' := Act(e, s, before, Orphans(prefix, list, claims, heads, KeysOf(entries[..i])));
      }
    }

    /** List one level, classify every entry, and unless dry delete the orphans. */
    method Run(list: string, dry: bool) returns (out: seq<GcEntry>, s: Summary)
      requires OwnKeys(HeadsOf(storage.Value()))
      modifies storage`versions
      ensures dry ==> storage.versions == old(storage.versions) && s.deletedFiles == s.deletedBytes == s.errors == 0
      ensures !dry ==>
        Swept(old(storage.versions), storage.versions, storage.counter, storage.stuck,
              AllOrphans(prefix, list, FilePaths(store.entries), HeadsOf(old(storage.Value()))),
              s.deletedFiles, s.deletedBytes, s.errors > 0)
      ensures Reported(out, s, dry, prefix, list, FilePaths(store.entries), HeadsOf(old(storage.Value())))
    {
      ghost var before, heads, claims := storage.versions, HeadsOf(storage.Value()), FilePaths(store.entries);
      var fileKeys, paths := CollectClaims();
      s := Summary(0, 0, 0, 0, 0, 0, 0);
      out := [];
      var entries := storage.ListKeys(list, true);
      RunStateStart(dry, before, storage.counter, storage.stuck, prefix, list, claims);
      AccountedNothing(out, s, dry, entries[..0], prefix, claims);
      for i := 0 to |entries|
        invariant RunState(dry, before, storage.versions, storage.counter, storage.stuck, prefix, list, claims,
                           KeysOf(entries[..i]), s)
        invariant Accounted(out, s, dry, entries[..i], prefix, claims)
      {
        var e, s' := RunEntry(entries, i, dry, s, fileKeys, paths, list, before, claims);
        AccountedStep(out, s, s', dry, entries, i, prefix, claims, e);
        RunStateTally(dry, before, storage.versions, storage.counter, storage.stuck, prefix, list, claims,
                      KeysOf(entries[..i + 1]), e, s');
        s := Tally(e, s');
        out := out + [e];
      }
      assert entries[..|entries|] == entries;
      EveryKeyListed(prefix, list, claims, entries, heads);
      AllReported(out, s, dry, prefix, list, claims, entries, heads);
    }
  }

  /** The state of a run that has dealt with the given orphans. */
  ghost predicate Progress(before: Versions, now: Versions, counter: nat, stuck: set<string>, orphans: set<string>,
                           s: Summary) {
    Swept(before, now, counter, stuck, orphans, s.deletedFiles, s.deletedBytes, s.errors > 0)
  }

  function Booked(s: Summary, count: nat, bytes: nat, failed: bool): Summary {
    s.(deletedFiles := s.deletedFiles + count, deletedBytes := s.deletedBytes + bytes,
       errors := s.errors + (if failed then 1 else 0))
  }

  function Marked(e: GcEntry, count: nat, failed: bool): GcEntry {
    match e.action
    case Keep => e
    case DeleteFile => e.(deleted := !failed, failed := failed)
    case DeleteSubtree => e.(deletedN := count, deleted := !failed, failed := failed)
  }

  ghost predicate SameVerdict(e': GcEntry, e: GcEntry) {
    e'.(deleted := e.deleted, deletedN := e.deletedN, failed := e.failed) == e
  }

  ghost predicate SameCounts(s': Summary, s: Summary) {
    s'.(deletedFiles := s.deletedFiles, deletedBytes := s.deletedBytes, errors := s.errors) == s
  }

  lemma BookedProgress(a: Versions, b: Versions, c: Versions, counter: nat, stuck: set<string>, orphans: set<string>,
                       group: set<string>,
                       s: Summary, count: nat, bytes: nat, failed: bool)
    requires Progress(a, b, counter, stuck, orphans, s)
    requires Swept(b, c, counter, stuck, group, count, bytes, failed)
    ensures Progress(a, c, counter, stuck, orphans + group, Booked(s, count, bytes, failed))
  {
    SweptTrans(a, b, c, counter, stuck, orphans, group, s.deletedFiles, s.deletedBytes, s.errors > 0, count, bytes,
               failed);
  }

  /** A dry run changes nothing; a real one has dealt with the entries listed so far. */
  ghost predicate RunState(dry: bool, before: Versions, now: Versions, counter: nat, stuck: set<string>,
                           prefix: string, list: string, claims: set<Path>, done: set<string>, s: Summary) {
    if dry then now == before && s.deletedFiles == s.deletedBytes == s.errors == 0
    else Progress(before, now, counter, stuck, Orphans(prefix, list, claims, HeadsOf(Bucket(before, counter)), done), s)
  }

  lemma RunStateStart(dry: bool, before: Versions, counter: nat, stuck: set<string>, prefix: string, list: string,
                      claims: set<Path>)
    ensures RunState(dry, before, before, counter, stuck, prefix, list, claims, KeysOf([]),
                     Summary(0, 0, 0, 0, 0, 0, 0))
  {
    SweptNothing(before, counter, stuck);
    assert Orphans(prefix, list, claims, HeadsOf(Bucket(before, counter)), KeysOf([])) == {};
  }

  lemma TallyOnlyCounts(e: GcEntry, s: Summary)
    ensures var s' := Tally(e, s);
            s'.deletedFiles == s.deletedFiles && s'.deletedBytes == s.deletedBytes && s'.errors == s.errors
  {}

  lemma RunStateSame(dry: bool, before: Versions, now: Versions, counter: nat, stuck: set<string>, prefix: string,
                     list: string, claims: set<Path>, done: set<string>, s: Summary, s': Summary)
    requires RunState(dry, before, now, counter, stuck, prefix, list, claims, done, s)
    requires s'.deletedFiles == s.deletedFiles && s'.deletedBytes == s.deletedBytes && s'.errors == s.errors
    ensures RunState(dry, before, now, counter, stuck, prefix, list, claims, done, s')
  {}

  lemma RunStateTally(dry: bool, before: Versions, now: Versions, counter: nat, stuck: set<string>,
                      prefix: string, list: string, claims: set<Path>, done: set<string>, e: GcEntry, s: Summary)
    requires RunState(dry, before, now, counter, stuck, prefix, list, claims, done, s)
    ensures RunState(dry, before, now, counter, stuck, prefix, list, claims, done, Tally(e, s))
  {
    TallyOnlyCounts(e, s);
    RunStateSame(dry, before, now, counter, stuck, prefix, list, claims, done, s, Tally(e, s));
  }

  lemma AccountedNothing(out: seq<GcEntry>, s: Summary, dry: bool, entries: seq<RemoteInfo>, prefix: string,
                         paths: set<Path>)
    requires out == [] && entries == [] && s == Summary(0, 0, 0, 0, 0, 0, 0)
    ensures Accounted(out, s, dry, entries, prefix, paths)
  {}

  ghost predicate Accounted(out: seq<GcEntry>, s: Summary, dry: bool, entries: seq<RemoteInfo>, prefix: string,
                            paths: set<Path>) {
    AllDecided(out, entries, prefix, paths) && Counted(out, s) && Booking(out, s, dry)
  }

  lemma AccountedStep(out: seq<GcEntry>, s: Summary, s': Summary, dry: bool, entries: seq<RemoteInfo>, i: nat,
                      prefix: string, paths: set<Path>, e: GcEntry)
    requires i < |entries| && Accounted(out, s, dry, entries[..i], prefix, paths)
    requires Decided(e, entries[i], prefix, paths) && SameCounts(s', s) && Agree(e, s, s', dry)
    ensures Accounted(out + [e], Tally(e, s'), dry, entries[..i + 1], prefix, paths)
  {
    assert entries[..i + 1] == entries[..i] + [entries[i]];
    assert Front(out + [e]) == out && Last(out + [e]) == e;
  }

  // ---- What the report says ---------------------------------------------------------------

  /** What an attempt at an entry can have counted. */
  predicate Plausible(e: GcEntry, count: nat, failed: bool) {
    match e.action
    case Keep => count == 0 && !failed
    case DeleteFile => count == (if failed then 0 else 1)
    case DeleteSubtree => true
  }

  /** The objects an entry reports as deleted. */
  function DeletedBy(e: GcEntry): nat {
    match e.action
    case Keep => 0
    case DeleteFile => if e.deleted then 1 else 0
    case DeleteSubtree => e.deletedN
  }

  /** The entry reports what the summary books. */
  predicate Agree(e: GcEntry, s: Summary, s': Summary, dry: bool) {
    && s'.deletedFiles == s.deletedFiles + DeletedBy(e)
    && s'.errors == s.errors + (if e.failed then 1 else 0)
    && (e.deleted <==> !dry && e.action != Keep && !e.failed)
  }

  predicate Untouched(e: GcEntry) {
    !e.deleted && e.deletedN == 0 && !e.failed
  }

  lemma MarkedAgrees(e: GcEntry, s: Summary, count: nat, bytes: nat, failed: bool)
    requires Untouched(e) && Plausible(e, count, failed)
    ensures var e', s' := Marked(e, count, failed), Booked(s, count, bytes, failed);
            SameVerdict(e', e) && SameCounts(s', s) && Agree(e', s, s', false)
  {}

  function DeletedIn(out: seq<GcEntry>): nat {
    if out == [] then 0 else DeletedIn(Front(out)) + DeletedBy(Last(out))
  }

  function FailedIn(out: seq<GcEntry>): nat {
    if out == [] then 0 else FailedIn(Front(out)) + (if Last(out).failed then 1 else 0)
  }

  /** The deletion totals are those of the entries, and an entry is marked deleted
      exactly when it was to be deleted, for real, and nothing failed. */
  ghost predicate Booking(out: seq<GcEntry>, s: Summary, dry: bool) {
    && s.deletedFiles == DeletedIn(out) && s.errors == FailedIn(out)
    && forall e :: e in out ==> (e.deleted <==> !dry && e.action != Keep && !e.failed)
  }

  /** The objects an entry's action aims at. */
  ghost function Targets(e: GcEntry, heads: Heads): set<string> {
    match e.action
    case Keep => {}
    case DeleteFile => {e.key}
    case DeleteSubtree => KeysBelow(heads, e.key)
  }

  function Tally(e: GcEntry, s: Summary): Summary {
    match e.action
    case DeleteFile => s.(orphanFiles := s.orphanFiles + 1)
    case DeleteSubtree => s.(orphanDirs := s.orphanDirs + 1)
    case Keep => if e.isDir then s.(keptDirs := s.keptDirs + 1) else s.(keptFiles := s.keptFiles + 1)
  }

  ghost predicate AllDecided(out: seq<GcEntry>, entries: seq<RemoteInfo>, prefix: string, paths: set<Path>) {
    |out| == |entries| && forall i :: 0 <= i < |out| ==> Decided(out[i], entries[i], prefix, paths)
  }

  function CountOf(out: seq<GcEntry>, action: Action, isDir: bool): nat {
    if out == [] then 0
    else CountOf(Front(out), action, isDir) + (if Last(out).action == action && Last(out).isDir == isDir then 1 else 0)
  }

  /** The entries with this verdict. */
  predicate HasVerdict(e: GcEntry, action: Action, isDir: bool) {
    e.action == action && e.isDir == isDir
  }

  function Verdicts(out: seq<GcEntry>, action: Action, isDir: bool): set<nat> {
    set i | 0 <= i < |out| && HasVerdict(out[i], action, isDir)
  }

  function Failures(out: seq<GcEntry>): set<nat> {
    set i | 0 <= i < |out| && out[i].failed
  }

  lemma VerdictsMore(out: seq<GcEntry>, action: Action, isDir: bool)
    requires out != []
    ensures |Verdicts(out, action, isDir)|
            == |Verdicts(Front(out), action, isDir)| + (if HasVerdict(Last(out), action, isDir) then 1 else 0)
  {
    var n, was, now := |out| - 1, Verdicts(Front(out), action, isDir), Verdicts(out, action, isDir);
    var last := if HasVerdict(out[n], action, isDir) then {n} else {};
    forall i ensures i in now <==> i in was || i in last {
      assert 0 <= i < n ==> Front(out)[i] == out[i];
    }
    assert now == was + last && was !! last;
  }

  /** The counts are numbers of entries. */
  lemma {:induction false} CountIsSize(out: seq<GcEntry>, action: Action, isDir: bool)
    ensures CountOf(out, action, isDir) == |Verdicts(out, action, isDir)|
  {
    if out != [] {
      CountIsSize(Front(out), action, isDir);
      VerdictsMore(out, action, isDir);
    }
  }

  lemma {:induction false} FailedIsSize(out: seq<GcEntry>)
    ensures FailedIn(out) == |Failures(out)|
  {
    if out != [] {
      FailedIsSize(Front(out));
      assert Failures(out) == Failures(Front(out)) + (if Last(out).failed then {|out| - 1} else {});
    }
  }

  /** The entry counters say how many entries had each outcome. */
  ghost predicate Counted(out: seq<GcEntry>, s: Summary) {
    && s.orphanFiles == CountOf(out, DeleteFile, false) && s.orphanDirs == CountOf(out, DeleteSubtree, true)
    && s.keptFiles == CountOf(out, Keep, false) && s.keptDirs == CountOf(out, Keep, true)
  }

  /** Every object below the list prefix is covered by exactly the verdict of its
      own entry, and the counters agree with the entries. */
  ghost predicate Reported(out: seq<GcEntry>, s: Summary, dry: bool, prefix: string, list: string, paths: set<Path>,
                           heads: Heads) {
    && Counted(out, s) && Booking(out, s, dry)
    && (forall i, j :: 0 <= i < j < |out| ==> out[i].key != out[j].key)
    && (forall k :: k in heads && HasPrefix(k, list) ==> CoveredBy(out, prefix, list, paths, k))
  }

  /** The key's own entry reports the key's fate. */
  ghost predicate CoveredBy(out: seq<GcEntry>, prefix: string, list: string, paths: set<Path>, k: string)
    requires HasPrefix(k, list)
  {
    exists i :: 0 <= i < |out| && Covers(out[i], prefix, list, paths, k)
  }

  ghost predicate Covers(e: GcEntry, prefix: string, list: string, paths: set<Path>, k: string)
    requires HasPrefix(k, list)
  {
    e.key == Listed(list, true, k) && (e.action == Keep <==> Kept(prefix, list, paths, k))
  }

  ghost predicate IsHead(heads: Heads, key: string, fileId: FileId, size: nat) {
    key in heads && heads[key].fileId == fileId && heads[key].size == size
  }

  /** done were tried: the deletable ones are gone and booked. */
  ghost predicate Swept(before: Versions, after: Versions, counter: nat, stuck: set<string>, done: set<string>,
                        count: nat, bytes: nat, failed: bool) {
    && after == before - (done - stuck)
    && Accounts(HeadsOf(Bucket(before, counter)), HeadsOf(Bucket(after, counter)), count, bytes)
    && (failed <==> AnyStuck(done, stuck))
  }

  lemma SweptNothing(versions: Versions, counter: nat, stuck: set<string>)
    ensures Swept(versions, versions, counter, stuck, {}, 0, 0, false)
  {
    assert versions - ({} - stuck) == versions;
  }

  lemma MinusTwice(a: Versions, done: set<string>, more: set<string>, stuck: set<string>)
    ensures a - (done - stuck) - (more - stuck) == a - ((done + more) - stuck)
  {
    assert (done + more) - stuck == (done - stuck) + (more - stuck);
  }

  lemma AnyStuckUnion(done: set<string>, more: set<string>, stuck: set<string>)
    ensures AnyStuck(done + more, stuck) <==> AnyStuck(done, stuck) || AnyStuck(more, stuck)
  {
    if AnyStuck(done, stuck) {
      var k :| k in done && k in stuck;
      assert k in done + more;
    }
    if AnyStuck(more, stuck) {
      var k :| k in more && k in stuck;
      assert k in done + more;
    }
  }

  lemma SweptTrans(a: Versions, b: Versions, c: Versions, counter: nat, stuck: set<string>, done: set<string>,
                   more: set<string>,
                   count: nat, bytes: nat, failed: bool, count': nat, bytes': nat, failed': bool)
    requires Swept(a, b, counter, stuck, done, count, bytes, failed)
    requires Swept(b, c, counter, stuck, more, count', bytes', failed')
    ensures Swept(a, c, counter, stuck, done + more, count + count', bytes + bytes', failed || failed')
  {
    MinusTwice(a, done, more, stuck);
    AnyStuckUnion(done, more, stuck);
    AccountsTrans(HeadsOf(Bucket(a, counter)), HeadsOf(Bucket(b, counter)), HeadsOf(Bucket(c, counter)), count, bytes,
                  count', bytes');
  }

  lemma SweptOneGone(a: Versions, counter: nat, stuck: set<string>, key: string)
    requires key in HeadsOf(Bucket(a, counter)) && key !in stuck
    ensures Swept(a, a - {key}, counter, stuck, {key}, 1, HeadsOf(Bucket(a, counter))[key].size, false)
  {
    var heads := HeadsOf(Bucket(a, counter));
    assert {key} - stuck == {key};
    AccountsOne(heads, heads, 0, 0, key);
    HeadsOfMinus(a, counter, {key});
  }

  lemma SweptOneStuck(a: Versions, counter: nat, stuck: set<string>, key: string)
    requires key in stuck
    ensures Swept(a, a, counter, stuck, {key}, 0, 0, true)
  {
    assert {key} - stuck == {};
    assert a - {} == a;
    assert key in {key};
  }

  lemma SweepHitOrMiss(before: Versions, after: Versions, counter: nat, stuck: set<string>, done: set<string>,
                       count: nat, bytes: nat, failed: bool, key: string)
    requires Swept(before, after, counter, stuck, done, count, bytes, failed)
    requires key in HeadsOf(Bucket(after, counter))
    ensures key in stuck ==> Swept(before, after, counter, stuck, done + {key}, count, bytes, true)
    ensures key !in stuck ==>
      Swept(before, after - {key}, counter, stuck, done + {key}, count + 1,
            bytes + HeadsOf(Bucket(after, counter))[key].size, failed)
  {
    if key in stuck {
      SweptOneStuck(after, counter, stuck, key);
      SweptTrans(before, after, after, counter, stuck, done, {key}, count, bytes, failed, 0, 0, true);
    } else {
      SweptOneGone(after, counter, stuck, key);
      SweptTrans(before, after, after - {key}, counter, stuck, done, {key}, count, bytes, failed,
                 1, HeadsOf(Bucket(after, counter))[key].size, false);
    }
  }

  ghost function KeysOf(entries: seq<RemoteInfo>): set<string> {
    set e | e in entries :: e.key
  }

  ghost function KeysBelow(heads: Heads, m: string): set<string> {
    set k | k in heads && HasPrefix(k, m)
  }

  ghost predicate AnyStuck(keys: set<string>, stuck: set<string>) {
    exists k :: k in keys && k in stuck
  }

  lemma NextEntry(entries: seq<RemoteInfo>, i: nat)
    requires NoDuplicates(entries) && i < |entries|
    ensures entries[i].key !in KeysOf(entries[..i])
    ensures KeysOf(entries[..i + 1]) == KeysOf(entries[..i]) + {entries[i].key}
  {
    assert entries[..i + 1] == entries[..i] + [entries[i]];
    forall e | e in entries[..i] ensures e.key != entries[i].key {
      var j :| 0 <= j < i && entries[j] == e;
    }
    assert forall e :: e in entries[..i + 1] <==> e in entries[..i] || e == entries[i];
  }

  /** A head that has not been removed is still the head. */
  lemma StillThere(versions: Versions, counter: nat, gone: set<string>, k: string)
    requires k in HeadsOf(Bucket(versions, counter)) && k !in gone
    ensures var now := Bucket(versions - gone, counter);
            && k in HeadsOf(now) && HeadsOf(now)[k] == HeadsOf(Bucket(versions, counter))[k]
            && Head(now, k) == Some(HeadsOf(now)[k])
  {}

  /** The keys of a flat listing are the keys below its prefix. */
  lemma FlatDone(entries: seq<RemoteInfo>, heads: Heads, m: string)
    requires IsListing(entries, heads, m, false) && OwnKeys(heads)
    ensures KeysOf(entries) == KeysBelow(heads, m)
  {
    forall k ensures k in KeysOf(entries) <==> k in heads && HasPrefix(k, m) {
      if k in KeysOf(entries) {
        var j :| 0 <= j < |entries| && entries[j].key == k;
        var x := ListingSound(entries, heads, m, false, j);
      }
      if k in heads && HasPrefix(k, m) {
        assert Shows(entries, Listed(m, false, k));
      }
    }
  }

  // ---- Entries and objects -----------------------------------------------------------------------

  /** The verdict on an entry is the verdict on every object it stands for. */
  lemma VerdictOfEntry(prefix: string, list: string, paths: set<Path>, entries: seq<RemoteInfo>, heads: Heads, i: nat,
                       e: GcEntry, k: string)
    requires IsListing(entries, heads, list, true) && OwnKeys(heads) && i < |entries|
    requires Decided(e, entries[i], prefix, paths)
    requires k in heads && HasPrefix(k, list) && Listed(list, true, k) == entries[i].key
    ensures e.isDir <==> Marker(list, k).Some?
    ensures e.action == Keep <==> Kept(prefix, list, paths, k)
    ensures !e.isDir ==> k == e.key && IsHead(heads, e.key, e.fileId, e.size) && e.fileId != 0
  {
    var x := ListingSound(entries, heads, list, true, i);
    if x != k {
      ListedApart(heads, list, true, x, k);
    }
    MarkerShape(list, k);
    if Marker(list, k).Some? {
      SlashSuffix(entries[i].key);
    }
  }

  /** The objects a doomed entry aims at are the ones it stands for. */
  lemma TargetsOfEntry(prefix: string, list: string, paths: set<Path>, entries: seq<RemoteInfo>, heads: Heads, i: nat,
                       e: GcEntry, k: string)
    requires IsListing(entries, heads, list, true) && OwnKeys(heads) && i < |entries|
    requires Decided(e, entries[i], prefix, paths) && e.action != Keep
    ensures k in Targets(e, heads) <==> k in heads && HasPrefix(k, list) && Listed(list, true, k) == entries[i].key
  {
    var x := ListingSound(entries, heads, list, true, i);
    VerdictOfEntry(prefix, list, paths, entries, heads, i, e, x);
    if e.isDir {
      MarkerShape(list, x);
      if HasPrefix(k, e.key) {
        BelowMarker(list, x, k);
      }
      if k in heads && HasPrefix(k, list) && Listed(list, true, k) == entries[i].key {
        VerdictOfEntry(prefix, list, paths, entries, heads, i, e, k);
        MarkerShape(list, k);
      }
    } else if k in heads && HasPrefix(k, list) && Listed(list, true, k) == entries[i].key {
      VerdictOfEntry(prefix, list, paths, entries, heads, i, e, k);
    }
  }

  /** One more entry: the orphans it adds, and that they are all still stored. */
  lemma OrphansStep(prefix: string, list: string, paths: set<Path>, entries: seq<RemoteInfo>, heads: Heads,
                    before: Versions, now: Versions, counter: nat, stuck: set<string>, i: nat, e: GcEntry)
    requires heads == HeadsOf(Bucket(before, counter)) && OwnKeys(heads)
    requires IsListing(entries, heads, list, true) && i < |entries| && Decided(e, entries[i], prefix, paths)
    requires now == before - (Orphans(prefix, list, paths, heads, KeysOf(entries[..i])) - stuck)
    ensures OwnKeys(HeadsOf(Bucket(now, counter)))
    ensures Orphans(prefix, list, paths, heads, KeysOf(entries[..i]) + {entries[i].key})
         == Orphans(prefix, list, paths, heads, KeysOf(entries[..i])) + Targets(e, HeadsOf(Bucket(now, counter)))
    ensures e.action == DeleteFile ==> e.fileId != 0 && IsHead(HeadsOf(Bucket(now, counter)), e.key, e.fileId, e.size)
  {
    var done := KeysOf(entries[..i]);
    var gone := Orphans(prefix, list, paths, heads, done) - stuck;
    HeadsOfMinus(before, counter, gone);
    OwnKeysMinus(heads, gone);
    NextEntry(entries, i);
    var heads' := HeadsOf(Bucket(now, counter));
    if e.action != Keep {
      TargetsSame(prefix, list, paths, entries, heads, i, e, gone);
    }
    forall k
      ensures k in Orphans(prefix, list, paths, heads, done + {entries[i].key})
         <==> k in Orphans(prefix, list, paths, heads, done) || k in Targets(e, heads')
    {
      if k in heads && HasPrefix(k, list) && Listed(list, true, k) == entries[i].key {
        VerdictOfEntry(prefix, list, paths, entries, heads, i, e, k);
      }
      if e.action != Keep {
        TargetsOfEntry(prefix, list, paths, entries, heads, i, e, k);
      }
    }
    if e.action == DeleteFile {
      TargetsOfEntry(prefix, list, paths, entries, heads, i, e, e.key);
      VerdictOfEntry(prefix, list, paths, entries, heads, i, e, e.key);
    }
  }

  /** Nothing an entry aims at was removed for an earlier entry. */
  lemma TargetsSame(prefix: string, list: string, paths: set<Path>, entries: seq<RemoteInfo>, heads: Heads, i: nat,
                    e: GcEntry, gone: set<string>)
    requires IsListing(entries, heads, list, true) && OwnKeys(heads) && i < |entries|
    requires Decided(e, entries[i], prefix, paths) && e.action != Keep
    requires forall k :: k in gone ==> k in heads && HasPrefix(k, list) && Listed(list, true, k) in KeysOf(entries[..i])
    ensures Targets(e, heads) == Targets(e, heads - gone)
    ensures forall k :: k in Targets(e, heads) ==> k !in gone
  {
    NextEntry(entries, i);
    forall k | k in Targets(e, heads) ensures k !in gone {
      TargetsOfEntry(prefix, list, paths, entries, heads, i, e, k);
    }
  }

  lemma EveryKeyListed(prefix: string, list: string, paths: set<Path>, entries: seq<RemoteInfo>, heads: Heads)
    requires IsListing(entries, heads, list, true)
    ensures Orphans(prefix, list, paths, heads, KeysOf(entries)) == AllOrphans(prefix, list, paths, heads)
  {
    forall k | k in heads && HasPrefix(k, list) ensures Listed(list, true, k) in KeysOf(entries) {
      assert Shows(entries, Listed(list, true, k));
      var i :| 0 <= i < |entries| && entries[i].key == Listed(list, true, k);
      assert entries[i] in entries;
    }
  }

  lemma AllReported(out: seq<GcEntry>, s: Summary, dry: bool, prefix: string, list: string, paths: set<Path>,
                    entries: seq<RemoteInfo>, heads: Heads)
    requires IsListing(entries, heads, list, true) && OwnKeys(heads)
    requires AllDecided(out, entries, prefix, paths) && Counted(out, s) && Booking(out, s, dry)
    ensures Reported(out, s, dry, prefix, list, paths, heads)
  {
    forall k | k in heads && HasPrefix(k, list)
      ensures CoveredBy(out, prefix, list, paths, k)
    {
      assert Shows(entries, Listed(list, true, k));
      var i :| 0 <= i < |entries| && entries[i].key == Listed(list, true, k);
      VerdictOfEntry(prefix, list, paths, entries, heads, i, out[i], k);
      assert Covers(out[i], prefix, list, paths, k);
    }
  }

  // ---- What a run achieves ---------------------------------------------------------------------------

  /** After a real run: under the guard every claimed object that was there still
      is, failures or not; objects outside the list prefix are untouched; and if
      nothing failed, what is left below the list prefix is exactly what is kept. */
  lemma {:induction false} CollectedExactly(before: Versions, after: Versions, counter: nat, stuck: set<string>,
                                            prefix: string, list: string,
                         entries: Entries, n: nat, bytes: nat, failed: bool)
    requires Swept(before, after, counter, stuck,
                   AllOrphans(prefix, list, FilePaths(entries), HeadsOf(Bucket(before, counter))), n, bytes, failed)
    ensures var old', new', paths := HeadsOf(Bucket(before, counter)), HeadsOf(Bucket(after, counter)),
      FilePaths(entries);
            && (Guard(prefix, list) && (forall p :: p in paths ==> Relative(p)) ==>
                 forall p :: p in paths && JoinKey(prefix, p) in old' ==>
                   JoinKey(prefix, p) in new' && new'[JoinKey(prefix, p)] == old'[JoinKey(prefix, p)])
            && (forall k :: k in old' && !HasPrefix(k, list) ==> k in new' && new'[k] == old'[k])
            && (!failed ==> forall k :: k in old' && HasPrefix(k, list) ==>
                (k in new' <==> Kept(prefix, list, paths, k)))
            && (forall k :: k in new' ==> k in old')
            && |old'| == |new'| + n && TotalBytes(old') == TotalBytes(new') + bytes
  {
    var heads, paths := HeadsOf(Bucket(before, counter)), FilePaths(entries);
    var orphans := AllOrphans(prefix, list, paths, heads);
    HeadsOfMinus(before, counter, orphans - stuck);
    if Guard(prefix, list) && (forall p :: p in paths ==> Relative(p)) {
      forall p | p in paths && JoinKey(prefix, p) in heads ensures JoinKey(prefix, p) !in orphans {
        if HasPrefix(JoinKey(prefix, p), list) {
          GuardKeeps(prefix, list, paths, p);
        }
      }
    }
  }
}
