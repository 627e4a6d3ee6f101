/** The writing client: what it pushes and how it takes the answer (client_push.go). */
module LocalPush {
  import opened Types
  import opened ChangeLog
  import opened HubStore
  import opened Scanning
  import opened Places
  import opened Push
  import Sync

  // ---- Scanning the sync directory --------------------------------------------------

  datatype LocalChange = LocalChange(path: Path, digest: Digest, data: Bytes, hub: Option<Row>)

  datatype LocalDeletion = LocalDeletion(path: Path, hub: Row)

  /** The quick check: same mtime and size, not read. */
  predicate LooksUnchanged(f: FileStat, row: Row) {
    row.meta.mtime == f.mtime && row.meta.size == |f.content|
  }

  predicate Differs(p: Path, files: Disk, tree: Tree, hash: Hasher)
    requires p in files
  {
    p in tree ==> !LooksUnchanged(files[p], tree[p]) && hash(files[p].content) != tree[p].meta.digest
  }

  function ChangeOf(p: Path, files: Disk, tree: Tree, hash: Hasher): LocalChange
    requires p in files
  {
    LocalChange(p, hash(files[p].content), files[p].content, if p in tree then Some(tree[p]) else None)
  }

  /** Some listing of all differences and all deletions, each once. */
  ghost predicate IsLocalScan(changes: seq<LocalChange>, deletions: seq<LocalDeletion>, files: Disk, tree: Tree,
                              hash: Hasher) {
    && (forall c :: c in changes ==>
        c.path in files && Differs(c.path, files, tree, hash) && c == ChangeOf(c.path, files, tree, hash))
    && (forall p :: p in files && Differs(p, files, tree, hash) ==> ChangeOf(p, files, tree, hash) in changes)
    && (forall i, j :: 0 <= i < j < |changes| ==> changes[i].path != changes[j].path)
    && (forall d :: d in deletions ==> d.path in tree && d.path !in files && d.hub == tree[d.path])
    && (forall p :: p in tree && p !in files ==> LocalDeletion(p, tree[p]) in deletions)
    && (forall i, j :: 0 <= i < j < |deletions| ==> deletions[i].path != deletions[j].path)
  }

  // ---- Push ops --------------------------------------------------------------------------

  function ChangeOp(c: LocalChange): PushOp {
    PushOp(c.path, if c.hub.None? then OpCreate else OpUpdate, if c.hub.None? then 0 else c.hub.value.version, c.data)
  }

  function DeletionOp(d: LocalDeletion): PushOp {
    PushOp(d.path, OpDelete, d.hub.version, [])
  }

  /** One op per change, then one per deletion. */
  function OpsOf(changes: seq<LocalChange>, deletions: seq<LocalDeletion>): (ops: seq<PushOp>)
    ensures |ops| == |changes| + |deletions|
    ensures forall i :: 0 <= i < |changes| ==> ops[i] == ChangeOp(changes[i])
    ensures forall i :: 0 <= i < |deletions| ==> ops[|changes| + i] == DeletionOp(deletions[i])
  {
    seq(|changes|, i requires 0 <= i < |changes| => ChangeOp(changes[i]))
      + seq(|deletions|, i requires 0 <= i < |deletions| => DeletionOp(deletions[i]))
  }

  method BuildPushOps(changes: seq<LocalChange>, deletions: seq<LocalDeletion>) returns (ops: seq<PushOp>)
    ensures ops == OpsOf(changes, deletions)
  {
    ops := [];
    for i := 0 to |changes|
      invariant |ops| == i && forall k :: 0 <= k < i ==> ops[k] == ChangeOp(changes[k])
    {
      var c := changes[i];
      var op := PushOp(c.path, OpUpdate, 0, c.data);
      if c.hub.None? {
        op := op.(kind := OpCreate);
      } else {
        op := op.(baseVersion := c.hub.value.version);
      }
      ops := ops + [op];
    }
    for i := 0 to |deletions|
      invariant |ops| == |changes| + i
      invariant forall k :: 0 <= k < |changes| ==> ops[k] == ChangeOp(changes[k])
      invariant forall k :: 0 <= k < i ==> ops[|changes| + k] == DeletionOp(deletions[k])
    {
      ops := ops + [PushOp(deletions[i].path, OpDelete, deletions[i].hub.version, [])];
    }
  }

  // ---- What the ops describe ----------------------------------------------------------------

  type Digests = map<Path, Digest>

  function TreeDigests(tree: Tree): Digests {
    map p | p in tree :: tree[p].meta.digest
  }

  function LocalDigests(files: Disk, hash: Hasher): Digests {
    map p | p in files :: hash(files[p].content)
  }

  function ApplyOp(m: Digests, op: PushOp, hash: Hasher): Digests {
    if op.kind.OpDelete? then m - {op.path} else m[op.path := hash(op.data)]
  }

  function ApplyOps(m: Digests, ops: seq<PushOp>, hash: Hasher): Digests {
    if ops == [] then m else ApplyOp(ApplyOps(m, Front(ops), hash), Last(ops), hash)
  }

  /** What an op leaves at its own path. */
  ghost predicate LeftBy(m: Digests, op: PushOp, hash: Hasher) {
    if op.kind.OpDelete? then op.path !in m else op.path in m && m[op.path] == hash(op.data)
  }

  ghost predicate SameDigest(a: Digests, b: Digests, p: Path) {
    (p in a <==> p in b) && (p in a ==> a[p] == b[p])
  }

  ghost predicate DistinctPaths(ops: seq<PushOp>) {
    forall i, j :: 0 <= i < j < |ops| ==> ops[i].path != ops[j].path
  }

  lemma {:induction false} ApplyOpsAt(m: Digests, ops: seq<PushOp>, hash: Hasher, p: Path)
    requires DistinctPaths(ops)
    ensures forall i :: 0 <= i < |ops| && ops[i].path == p ==> LeftBy(ApplyOps(m, ops, hash), ops[i], hash)
    ensures (forall i :: 0 <= i < |ops| ==> ops[i].path != p) ==> SameDigest(ApplyOps(m, ops, hash), m, p)
  {
    if ops != [] {
      ApplyOpsAt(m, Front(ops), hash, p);
    }
  }

  lemma OpsDistinct(changes: seq<LocalChange>, deletions: seq<LocalDeletion>, files: Disk, tree: Tree, hash: Hasher)
    requires IsLocalScan(changes, deletions, files, tree, hash)
    ensures DistinctPaths(OpsOf(changes, deletions))
  {
    var ops := OpsOf(changes, deletions);
    forall i, j | 0 <= i < j < |ops| ensures ops[i].path != ops[j].path {
      if i < |changes| {
        assert changes[i] in changes;
      }
      if j >= |changes| {
        assert ops[j] == DeletionOp(deletions[j - |changes|]);
        assert deletions[j - |changes|] in deletions;
        if i >= |changes| {
          assert ops[i] == DeletionOp(deletions[i - |changes|]);
        }
      }
    }
  }

  /** The op for a path, if the scan reported it. */
  lemma OpFor(changes: seq<LocalChange>, deletions: seq<LocalDeletion>, files: Disk, tree: Tree, hash: Hasher,
              p: Path) returns (i: nat)
    requires IsLocalScan(changes, deletions, files, tree, hash)
    requires (p in files && Differs(p, files, tree, hash)) || (p in tree && p !in files)
    ensures i < |changes| + |deletions|
    ensures OpsOf(changes, deletions)[i] == if p in files then ChangeOp(ChangeOf(p, files, tree, hash))
      else DeletionOp(LocalDeletion(p, tree[p]))
  {
    if p in files {
      i :| 0 <= i < |changes| && changes[i] == ChangeOf(p, files, tree, hash);
    } else {
      var k :| 0 <= k < |deletions| && deletions[k] == LocalDeletion(p, tree[p]);
      i := |changes| + k;
    }
  }

  lemma NoOpFor(changes: seq<LocalChange>, deletions: seq<LocalDeletion>, files: Disk, tree: Tree, hash: Hasher,
                p: Path)
    requires IsLocalScan(changes, deletions, files, tree, hash)
    requires p in files ==> !Differs(p, files, tree, hash)
    requires p in files || p !in tree
    ensures forall i :: 0 <= i < |changes| + |deletions| ==> OpsOf(changes, deletions)[i].path != p
  {
    var ops := OpsOf(changes, deletions);
    forall i | 0 <= i < |ops| ensures ops[i].path != p {
      if i < |changes| {
        assert changes[i] in changes;
      } else {
        assert ops[i] == DeletionOp(deletions[i - |changes|]);
        assert deletions[i - |changes|] in deletions;
      }
    }
  }

  /** The file's modification time and size are those of its row. */
  ghost predicate StatOf(f: FileStat, row: Row) {
    f.mtime == row.meta.mtime && |f.content| == row.meta.size
  }

  /** Stat caching is honest: a file with the stat of its row has the row's content. */
  ghost predicate HonestStats(files: Disk, tree: Tree, hash: Hasher) {
    forall p :: p in files && p in tree && StatOf(files[p], tree[p]) ==>
      hash(files[p].content) == tree[p].meta.digest
  }

  lemma OpsAt(changes: seq<LocalChange>, deletions: seq<LocalDeletion>, files: Disk, tree: Tree, hash: Hasher, p: Path)
    requires IsLocalScan(changes, deletions, files, tree, hash)
    ensures var m := ApplyOps(TreeDigests(tree), OpsOf(changes, deletions), hash);
            && (p in m <==> p in files)
            && (p in files ==>
                 if p in tree && LooksUnchanged(files[p], tree[p]) then m[p] == tree[p].meta.digest
                   else m[p] == hash(files[p].content))
  {
    var ops := OpsOf(changes, deletions);
    OpsDistinct(changes, deletions, files, tree, hash);
    ApplyOpsAt(TreeDigests(tree), ops, hash, p);
    if (p in files && Differs(p, files, tree, hash)) || (p in tree && p !in files) {
      var i := OpFor(changes, deletions, files, tree, hash, p);
      assert LeftBy(ApplyOps(TreeDigests(tree), ops, hash), ops[i], hash);
    } else {
      NoOpFor(changes, deletions, files, tree, hash, p);
    }
  }

  /** The ops turn the tree's digests into the local ones if and only if the stat
      cache is honest. */
  lemma OpsDescribeDifference(changes: seq<LocalChange>, deletions: seq<LocalDeletion>, files: Disk, tree: Tree,
                              hash: Hasher)
    requires IsLocalScan(changes, deletions, files, tree, hash)
    ensures ApplyOps(TreeDigests(tree), OpsOf(changes, deletions), hash) == LocalDigests(files, hash) <==>
      HonestStats(files, tree, hash)
  {
    var m := ApplyOps(TreeDigests(tree), OpsOf(changes, deletions), hash);
    forall p
      ensures p in m <==> p in files
      ensures p in files ==>
        if p in tree && LooksUnchanged(files[p], tree[p]) then m[p] == tree[p].meta.digest
          else m[p] == hash(files[p].content)
    {
      OpsAt(changes, deletions, files, tree, hash, p);
    }
    if HonestStats(files, tree, hash) {
      assert m == LocalDigests(files, hash);
    } else {
      var p :| p in files && p in tree && LooksUnchanged(files[p], tree[p])
        && hash(files[p].content) != tree[p].meta.digest;
      assert m[p] != LocalDigests(files, hash)[p];
    }
  }

  // ---- An accepted push ---------------------------------------------------------------------

  /** The row the client writes for a pushed change: size and digest as pushed, and
      a modification time of 0. */
  function PushedMeta(c: LocalChange): Meta {
    Meta(File, c.digest, |c.data|, 0x1A4, 0)
  }

  function FindChange(changes: seq<LocalChange>, p: Path): (r: Option<LocalChange>)
    ensures r.Some? ==> r.value in changes && r.value.path == p
    ensures r.None? ==> forall c :: c in changes ==> c.path != p
  {
    if changes == [] then None
    else if changes[0].path == p then Some(changes[0])
    else FindChange(changes[1..], p)
  }

  ghost predicate IsDeletion(deletions: seq<LocalDeletion>, p: Path) {
    exists i :: 0 <= i < |deletions| && deletions[i].path == p
  }

  /** The client's tree after hearing that the op on p was accepted. */
  ghost function Acknowledge(tree: Tree, p: Path, version: nat, changes: seq<LocalChange>,
                             deletions: seq<LocalDeletion>): Tree {
    match FindChange(changes, p)
    case Some(c) => tree[p := Row(PushedMeta(c), version)]
    case None => if IsDeletion(deletions, p) then tree - {p} else tree
  }

  ghost function AcknowledgeAll(tree: Tree, results: seq<PushResult>, changes: seq<LocalChange>,
                                deletions: seq<LocalDeletion>): Tree {
    if results == [] then tree
    else
      var before := AcknowledgeAll(tree, Front(results), changes, deletions);
      match Last(results).outcome
      case Accepted(version) => Acknowledge(before, Last(results).path, version, changes, deletions)
      case _ => before
  }

  /** Every op was accepted. */
  ghost predicate AllAccepted(ops: seq<PushOp>, results: seq<PushResult>) {
    |results| == |ops| && forall i :: 0 <= i < |ops| ==> results[i].path == ops[i].path && results[i].outcome.Accepted?
  }

  /** What acknowledging left at p: the pushed row, no row, or the row it had. */
  ghost predicate Acknowledged(tree: Tree, tree': Tree, p: Path, changes: seq<LocalChange>,
                               deletions: seq<LocalDeletion>) {
    match FindChange(changes, p)
    case Some(c) => p in tree' && tree'[p].meta == PushedMeta(c)
    case None =>
      if IsDeletion(deletions, p) then p !in tree'
      else (p in tree' <==> p in tree) && (p in tree ==> tree'[p] == tree[p])
  }

  lemma {:induction false} AcknowledgeAt(tree: Tree, results: seq<PushResult>, changes: seq<LocalChange>,
                                         deletions: seq<LocalDeletion>, p: Path)
    requires forall r :: r in results ==> r.outcome.Accepted?
    ensures var tree' := AcknowledgeAll(tree, results, changes, deletions);
            if exists r :: r in results && r.path == p then Acknowledged(tree, tree', p, changes, deletions)
            else (p in tree' <==> p in tree) && (p in tree ==> tree'[p] == tree[p])
  {
    if results != [] {
      AcknowledgeAt(tree, Front(results), changes, deletions, p);
      assert Last(results) in results;
      assert forall r :: r in results <==> r in Front(results) || r == Last(results);
    }
  }

  lemma AcceptedAt(tree: Tree, results: seq<PushResult>, changes: seq<LocalChange>, deletions: seq<LocalDeletion>,
                   p: Path)
    requires AllAccepted(OpsOf(changes, deletions), results)
    ensures Acknowledged(tree, AcknowledgeAll(tree, results, changes, deletions), p, changes, deletions)
  {
    var ops := OpsOf(changes, deletions);
    forall r | r in results ensures r.outcome.Accepted? {
      var i :| 0 <= i < |results| && results[i] == r;
    }
    AcknowledgeAt(tree, results, changes, deletions, p);
    if FindChange(changes, p).Some? {
      var i :| 0 <= i < |changes| && changes[i] == FindChange(changes, p).value;
      assert ops[i] == ChangeOp(changes[i]) && results[i].path == p && results[i] in results;
    } else if IsDeletion(deletions, p) {
      var i :| 0 <= i < |deletions| && deletions[i].path == p;
      assert ops[|changes| + i] == DeletionOp(deletions[i]) && results[|changes| + i] in results;
    }
  }

  /** Once every op was accepted, scanning the unchanged files again finds nothing
      to push, honest stat cache or not. */
  lemma PushSettles(changes: seq<LocalChange>, deletions: seq<LocalDeletion>, files: Disk, tree: Tree, hash: Hasher,
                    results: seq<PushResult>, changes': seq<LocalChange>, deletions': seq<LocalDeletion>)
    requires IsLocalScan(changes, deletions, files, tree, hash)
    requires AllAccepted(OpsOf(changes, deletions), results)
    requires IsLocalScan(changes', deletions', files, AcknowledgeAll(tree, results, changes, deletions), hash)
    ensures OpsOf(changes', deletions') == []
  {
    var tree' := AcknowledgeAll(tree, results, changes, deletions);
    if changes' != [] {
      var p := changes'[0].path;
      assert changes'[0] in changes';
      QuietAt(changes, deletions, files, tree, hash, results, p);
    }
    if deletions' != [] {
      var p := deletions'[0].path;
      assert deletions'[0] in deletions';
      QuietAt(changes, deletions, files, tree, hash, results, p);
    }
  }

  lemma NotDeleted(changes: seq<LocalChange>, deletions: seq<LocalDeletion>, files: Disk, tree: Tree, hash: Hasher,
                   p: Path)
    requires IsLocalScan(changes, deletions, files, tree, hash) && p in files
    ensures !IsDeletion(deletions, p)
  {
    forall i | 0 <= i < |deletions| ensures deletions[i].path != p {
      assert deletions[i] in deletions;
    }
  }

  lemma QuietAt(changes: seq<LocalChange>, deletions: seq<LocalDeletion>, files: Disk, tree: Tree, hash: Hasher,
                results: seq<PushResult>, p: Path)
    requires IsLocalScan(changes, deletions, files, tree, hash)
    requires AllAccepted(OpsOf(changes, deletions), results)
    ensures var tree' := AcknowledgeAll(tree, results, changes, deletions);
            (p in files ==> !Differs(p, files, tree', hash)) && (p !in files ==> p !in tree')
  {
    AcceptedAt(tree, results, changes, deletions, p);
    if FindChange(changes, p).None? {
      if p in files {
        assert Differs(p, files, tree, hash) ==> ChangeOf(p, files, tree, hash) in changes;
        NotDeleted(changes, deletions, files, tree, hash, p);
      } else if p in tree {
        var i :| 0 <= i < |deletions| && deletions[i] == LocalDeletion(p, tree[p]);
        assert IsDeletion(deletions, p);
      }
    }
  }

  /** A later edit of a pushed file is always noticed, unless its modification time
      is 0 or its digest is the pushed one: the written row never looks unchanged. */
  lemma PushedRowIsReread(c: LocalChange, version: nat, files: Disk, tree: Tree, hash: Hasher)
    requires c.path in tree && tree[c.path] == Row(PushedMeta(c), version) && c.path in files
      && files[c.path].mtime != 0
    ensures Differs(c.path, files, tree, hash) <==> hash(files[c.path].content) != c.digest
  {}

  // ---- What a scan finds, by modification time and size -----------------------------------------

  /** A file is reported exactly if it has no row, or if neither its stat nor its
      digest is its row's, and then with its bytes and their digest; a row exactly
      if it has no file. The op for it names the version of the row it was compared
      with. */
  lemma ScanFinds(changes: seq<LocalChange>, deletions: seq<LocalDeletion>, files: Disk, tree: Tree, hash: Hasher,
                  p: Path)
    requires IsLocalScan(changes, deletions, files, tree, hash)
    ensures (exists c :: c in changes && c.path == p) <==>
            p in files && (p in tree ==>
              !StatOf(files[p], tree[p]) && hash(files[p].content) != tree[p].meta.digest)
    ensures (exists d :: d in deletions && d.path == p) <==> p in tree && p !in files
    ensures forall c :: c in changes && c.path == p ==>
      && c.digest == hash(files[p].content) && c.data == files[p].content
      && ChangeOp(c) == PushOp(p, if p in tree then OpUpdate else OpCreate, if p in tree then tree[p].version else 0,
                               files[p].content)
    ensures forall d :: d in deletions && d.path == p ==> DeletionOp(d) == PushOp(p, OpDelete, tree[p].version, [])
  {
    if p in files && Differs(p, files, tree, hash) {
      assert ChangeOf(p, files, tree, hash) in changes && ChangeOf(p, files, tree, hash).path == p;
    }
    if p in tree && p !in files {
      assert LocalDeletion(p, tree[p]) in deletions;
    }
  }

  // ---- Client to hub ----------------------------------------------------------------------------

  /** The hub's digests, row by row. */
  function HubDigests(db: Db): Digests {
    map p | p in db.entries :: db.entries[p].meta.digest
  }

  /** The op names the row the hub has: none to create, this version to replace. */
  ghost predicate UpToDate(db: Db, op: PushOp) {
    match op.kind
    case OpCreate => op.path !in db.entries
    case OpUpdate => op.path in db.entries && db.entries[op.path].version == op.baseVersion
    case OpDelete => op.path in db.entries && db.entries[op.path].version == op.baseVersion
    case OpUnknown(_) => false
  }

  /** What FAIL asks of an op's version; a delete of a path without a row is a no-op. */
  ghost predicate Acceptable(db: Db, op: PushOp) {
    UpToDate(db, op) || (op.kind.OpDelete? && op.path !in db.entries)
  }

  predicate Writes(op: PushOp) {
    op.kind.OpCreate? || op.kind.OpUpdate?
  }

  /** What an op that writes asks of the hub's disk. */
  ghost predicate HasRoom(h: HubState, op: PushOp) {
    Writes(op) ==> Free(h.files, h.dirs, op.path)
  }

  lemma AcceptedIfAcceptable(h: HubState, op: PushOp, t: Times, hash: Hasher)
    requires Consistent(h.db)
    ensures PushOne(h, op, FAIL, t, hash).1.path == op.path
    ensures PushOne(h, op, FAIL, t, hash).1.outcome.Accepted? <==> Acceptable(h.db, op) && HasRoom(h, op)
  {
    RowFollowsLog(h.db, op.path);
  }

  // ---- A whole request ------------------------------------------------------------------------

  ghost predicate Mentions(ops: seq<PushOp>, p: Path) {
    exists i :: 0 <= i < |ops| && ops[i].path == p
  }

  /** Rows of paths no op mentions are as before. */
  ghost predicate SameElsewhere(a: Entries, b: Entries, ops: seq<PushOp>) {
    forall p :: !Mentions(ops, p) ==> SameRow(a, b, p)
  }

  lemma LastNotMentioned(ops: seq<PushOp>)
    requires DistinctPaths(ops) && ops != []
    ensures !Mentions(Front(ops), Last(ops).path)
  {}

  lemma MentionsMore(ops: seq<PushOp>, p: Path)
    requires ops != []
    ensures Mentions(Front(ops), p) ==> Mentions(ops, p)
  {
    if Mentions(Front(ops), p) {
      var i :| 0 <= i < |Front(ops)| && Front(ops)[i].path == p;
      assert ops[i].path == p;
    }
  }

  lemma SameElsewhereOne(h: HubState, op: PushOp, t: Times, hash: Hasher, base: Entries, ops: seq<PushOp>)
    requires ops != [] && Last(ops) == op && SameElsewhere(h.db.entries, base, Front(ops))
    ensures SameElsewhere(PushOne(h, op, FAIL, t, hash).0.db.entries, base, ops)
  {
    var after := PushOne(h, op, FAIL, t, hash).0.db.entries;
    forall p | !Mentions(ops, p) ensures SameRow(after, base, p) {
      assert p != op.path by {
        assert ops[|ops| - 1] == op;
      }
      MentionsMore(ops, p);
      assert SameRow(h.db.entries, base, p);
      PushSparesOthers(h, op, FAIL, t, hash, p);
    }
  }

  /** The hub when it comes to the i-th op. */
  ghost function HubAt(h: HubState, ops: seq<PushOp>, clock: Clock, hash: Hasher, i: nat): HubState
    requires i <= |ops|
  {
    PushAll(h, ops[..i], FAIL, clock, hash).0
  }

  /** The op's version was judged against the rows before the request, its path
      against the disk when its turn came. */
  ghost predicate JudgedOne(db: Db, at: HubState, op: PushOp, r: PushResult) {
    r.path == op.path && (r.outcome.Accepted? <==> Acceptable(db, op) && HasRoom(at, op))
  }

  ghost predicate Judged(h: HubState, ops: seq<PushOp>, clock: Clock, hash: Hasher, results: seq<PushResult>) {
    |results| == |ops| && forall i :: 0 <= i < |ops| ==>
      JudgedOne(h.db, HubAt(h, ops, clock, hash, i), ops[i], results[i])
  }

  lemma LastJudged(h: HubState, before: HubState, ops: seq<PushOp>, t: Times, hash: Hasher)
    requires ops != [] && DistinctPaths(ops) && Consistent(before.db)
    requires SameElsewhere(before.db.entries, h.db.entries, Front(ops))
    ensures var r := PushOne(before, Last(ops), FAIL, t, hash);
            && JudgedOne(h.db, before, Last(ops), r.1) && Consistent(r.0.db)
            && SameElsewhere(r.0.db.entries, h.db.entries, ops)
  {
    var op := Last(ops);
    LastNotMentioned(ops);
    assert SameRow(before.db.entries, h.db.entries, op.path);
    AcceptedIfAcceptable(before, op, t, hash);
    PushKeeps(before, op, FAIL, t, hash);
    SameElsewhereOne(before, op, t, hash, h.db.entries, ops);
  }

  lemma HubAtFront(h: HubState, ops: seq<PushOp>, clock: Clock, hash: Hasher, i: nat)
    requires i < |ops|
    ensures HubAt(h, ops, clock, hash, i) == HubAt(h, Front(ops), clock, hash, i)
    ensures i == |ops| - 1 ==> HubAt(h, ops, clock, hash, i) == PushAll(h, Front(ops), FAIL, clock, hash).0
  {
    assert Front(ops)[..i] == ops[..i];
    assert i == |ops| - 1 ==> ops[..i] == Front(ops);
  }

  lemma JudgedMore(h: HubState, ops: seq<PushOp>, clock: Clock, hash: Hasher, results: seq<PushResult>, r: PushResult)
    requires ops != [] && Judged(h, Front(ops), clock, hash, results)
    requires JudgedOne(h.db, HubAt(h, ops, clock, hash, |ops| - 1), Last(ops), r)
    ensures Judged(h, ops, clock, hash, results + [r])
  {
    forall i | 0 <= i < |ops| ensures JudgedOne(h.db, HubAt(h, ops, clock, hash, i), ops[i], (results + [r])[i]) {
      if i < |results| {
        HubAtFront(h, ops, clock, hash, i);
        assert JudgedOne(h.db, HubAt(h, Front(ops), clock, hash, i), Front(ops)[i], results[i]);
      }
    }
  }

  /** Under FAIL, each op of a push with one op a path is accepted exactly if its
      version is acceptable as of the rows before the request and it has room on
      the disk the earlier ops left. */
  lemma {:induction false} PushAllJudges(h: HubState, ops: seq<PushOp>, clock: Clock, hash: Hasher)
    requires Consistent(h.db) && DistinctPaths(ops)
    ensures var (h', results) := PushAll(h, ops, FAIL, clock, hash);
            && Judged(h, ops, clock, hash, results)
            && Consistent(h'.db) && SameElsewhere(h'.db.entries, h.db.entries, ops)
  {
    if ops != [] {
      PushAllJudges(h, Front(ops), clock, hash);
      var (before, results) := PushAll(h, Front(ops), FAIL, clock, hash);
      LastJudged(h, before, ops, clock(|ops| - 1), hash);
      HubAtFront(h, ops, clock, hash, |ops| - 1);
      JudgedMore(h, ops, clock, hash, results, PushOne(before, Last(ops), FAIL, clock(|ops| - 1), hash).1);
    }
  }

  lemma AppendDigests(db: Db, e: ChangeEntry)
    ensures HubDigests(AppendDb(db, e)) ==
            if e.op.Delete? then HubDigests(db) - {e.path} else HubDigests(db)[e.path := e.meta.digest]
  {}

  lemma AcceptedDoes(h: HubState, op: PushOp, policy: Policy, t: Times, hash: Hasher)
    requires PushOne(h, op, policy, t, hash).1.outcome.Accepted?
    ensures HubDigests(PushOne(h, op, policy, t, hash).0.db) == ApplyOp(HubDigests(h.db), op, hash)
  {
    if op.kind.OpDelete? {
      AppendDigests(h.db, DeleteEntry(op, t));
      assert op.path !in h.db.entries ==> HubDigests(h.db) - {op.path} == HubDigests(h.db);
    } else {
      var changeOp := if op.path in h.db.entries then Update else Create;
      AppendDigests(h.db, WriteEntry(op, changeOp, t, hash));
      assert PushOne(h, op, policy, t, hash).0.db == AppendDb(h.db, WriteEntry(op, changeOp, t, hash));
    }
  }

  /** Ops that are all accepted do to the hub's digests what they say, and nothing
      else, under any policy. */
  lemma {:induction false} PushAllDoes(h: HubState, ops: seq<PushOp>, policy: Policy, clock: Clock, hash: Hasher)
    ensures var (h', results) := PushAll(h, ops, policy, clock, hash);
            && |results| == |ops|
            && (AllAccepted(ops, results) ==> HubDigests(h'.db) == ApplyOps(HubDigests(h.db), ops, hash))
  {
    if ops != [] {
      PushAllDoes(h, Front(ops), policy, clock, hash);
      var (before, results) := PushAll(h, Front(ops), policy, clock, hash);
      var r := PushOne(before, Last(ops), policy, clock(|ops| - 1), hash).1;
      if AllAccepted(ops, results + [r]) {
        assert AllAccepted(Front(ops), results) by {
          forall i | 0 <= i < |results| ensures results[i].path == Front(ops)[i].path && results[i].outcome.Accepted? {
            assert results[i] == (results + [r])[i];
          }
        }
        assert r == (results + [r])[|results|];
        AcceptedDoes(before, Last(ops), policy, clock(|ops| - 1), hash);
      }
    }
  }

  // ---- The versions of the rows ---------------------------------------------------------------

  /** The hub's row after an accepted op: at the answered version, or gone. */
  ghost predicate RowAnswered(entries: Entries, op: PushOp, r: PushResult) {
    r.outcome.Accepted? ==>
      if op.kind.OpDelete? then op.path !in entries
      else op.path in entries && entries[op.path].version == r.outcome.version
  }

  /** After a push with one op a path, the hub's row of each accepted op is at the
      version of its answer, or gone. */
  lemma {:induction false} RowsAnswered(h: HubState, ops: seq<PushOp>, policy: Policy, clock: Clock, hash: Hasher)
    requires Consistent(h.db) && DistinctPaths(ops)
    ensures var (h', results) := PushAll(h, ops, policy, clock, hash);
            && Consistent(h'.db) && |results| == |ops|
            && forall i :: 0 <= i < |ops| ==> RowAnswered(h'.db.entries, ops[i], results[i])
  {
    if ops != [] {
      RowsAnswered(h, Front(ops), policy, clock, hash);
      var (before, results) := PushAll(h, Front(ops), policy, clock, hash);
      var op, t := Last(ops), clock(|ops| - 1);
      PushKeeps(before, op, policy, t, hash);
      var (after, r) := PushOne(before, op, policy, t, hash);
      forall i | 0 <= i < |ops| ensures RowAnswered(after.db.entries, ops[i], (results + [r])[i]) {
        if i < |results| {
          assert RowAnswered(before.db.entries, Front(ops)[i], results[i]);
          AnsweredRowSpared(before, op, policy, t, hash, ops[i], results[i]);
        } else {
          RowAnsweredNow(before, op, policy, t, hash);
        }
      }
    }
  }

  lemma RowAnsweredNow(h: HubState, op: PushOp, policy: Policy, t: Times, hash: Hasher)
    requires Consistent(h.db)
    ensures var (h', r) := PushOne(h, op, policy, t, hash); RowAnswered(h'.db.entries, op, r)
  {
    if PushOne(h, op, policy, t, hash).1.outcome.Accepted? {
      AcceptedIsStored(h, op, policy, t, hash);
    }
  }

  lemma AnsweredRowSpared(h: HubState, op: PushOp, policy: Policy, t: Times, hash: Hasher, other: PushOp, r: PushResult)
    requires other.path != op.path && RowAnswered(h.db.entries, other, r)
    ensures RowAnswered(PushOne(h, op, policy, t, hash).0.db.entries, other, r)
  {
    PushSparesOthers(h, op, policy, t, hash, other.path);
  }

  /** The client's row after an accepted change: pushed digest and size, the answered
      version, permissions 0644 and modification time 0; none after a deletion. */
  lemma RowsAcknowledged(tree: Tree, results: seq<PushResult>, changes: seq<LocalChange>,
                         deletions: seq<LocalDeletion>, i: nat)
    requires DistinctPaths(OpsOf(changes, deletions)) && AllAccepted(OpsOf(changes, deletions), results)
    requires i < |changes| + |deletions|
    ensures var tree' := AcknowledgeAll(tree, results, changes, deletions);
            if i < |changes| then
              && changes[i].path in tree'
              && tree'[changes[i].path]
              == Row(Meta(File, changes[i].digest, |changes[i].data|, 0x1A4, 0), results[i].outcome.version)
            else deletions[i - |changes|].path !in tree'
  {
    var ops := OpsOf(changes, deletions);
    assert results[..|results|] == results && results[i].path == ops[i].path;
    AcceptedApart(ops, results);
    AnswerStands(tree, results, changes, deletions, i, |results|);
    if i < |changes| {
      FoundChange(changes, deletions, i);
    } else {
      NoChangeFound(changes, deletions, i - |changes|);
    }
  }

  lemma {:induction false} FoundChange(changes: seq<LocalChange>, deletions: seq<LocalDeletion>, i: nat)
    requires DistinctPaths(OpsOf(changes, deletions)) && i < |changes|
    ensures FindChange(changes, changes[i].path) == Some(changes[i])
  {
    var ops := OpsOf(changes, deletions);
    var found := FindChange(changes, changes[i].path);
    assert changes[i] in changes;
    var j :| 0 <= j < |changes| && changes[j] == found.value;
    assert ops[i].path == changes[i].path && ops[j].path == changes[j].path;
  }

  lemma {:induction false} NoChangeFound(changes: seq<LocalChange>, deletions: seq<LocalDeletion>, i: nat)
    requires DistinctPaths(OpsOf(changes, deletions)) && i < |deletions|
    ensures FindChange(changes, deletions[i].path).None? && IsDeletion(deletions, deletions[i].path)
  {
    var ops := OpsOf(changes, deletions);
    assert ops[|changes| + i].path == deletions[i].path;
    forall c | c in changes ensures c.path != deletions[i].path {
      var j :| 0 <= j < |changes| && changes[j] == c;
      assert ops[j].path == c.path;
    }
  }

  /** What an acknowledged answer leaves at its path. */
  ghost predicate Answered(tree': Tree, r: PushResult, changes: seq<LocalChange>, deletions: seq<LocalDeletion>)
    requires r.outcome.Accepted?
  {
    match FindChange(changes, r.path)
    case Some(c) =>
      r.path in tree' && tree'[r.path] == Row(Meta(File, c.digest, |c.data|, 0x1A4, 0), r.outcome.version)
    case None => IsDeletion(deletions, r.path) ==> r.path !in tree'
  }

  lemma AnswerSpared(before: Tree, r: PushResult, other: PushResult, changes: seq<LocalChange>,
                     deletions: seq<LocalDeletion>)
    requires r.outcome.Accepted? && other.outcome.Accepted?
    requires r.path == other.path ==> r == other
    requires r != other ==> Answered(before, r, changes, deletions)
    ensures Answered(Acknowledge(before, other.path, other.outcome.version, changes, deletions), r, changes, deletions)
  {}

  /** What the i-th answer did to its path stands after the first n. */
  lemma {:induction false} AnswerStands(tree: Tree, results: seq<PushResult>, changes: seq<LocalChange>,
                                        deletions: seq<LocalDeletion>, i: nat, n: nat)
    requires forall k :: 0 <= k < |results| ==> results[k].outcome.Accepted?
    requires forall k, l :: 0 <= k < l < |results| ==> results[k].path != results[l].path
    requires i < n <= |results|
    ensures Answered(AcknowledgeAll(tree, results[..n], changes, deletions), results[i], changes, deletions)
  {
    assert Front(results[..n]) == results[..n - 1] && Last(results[..n]) == results[n - 1];
    if i < n - 1 {
      AnswerStands(tree, results, changes, deletions, i, n - 1);
    }
    AnswerSpared(AcknowledgeAll(tree, results[..n - 1], changes, deletions), results[i], results[n - 1], changes,
                 deletions);
  }

  lemma AcceptedApart(ops: seq<PushOp>, results: seq<PushResult>)
    requires DistinctPaths(ops) && AllAccepted(ops, results)
    ensures forall k :: 0 <= k < |results| ==> results[k].outcome.Accepted?
    ensures forall k, l :: 0 <= k < l < |results| ==> results[k].path != results[l].path
  {
    forall k, l | 0 <= k < l < |results| ensures results[k].path != results[l].path {
      assert results[k].path == ops[k].path && results[l].path == ops[l].path;
    }
  }

  // ---- Room for the whole request ---------------------------------------------------------------

  ghost predicate Unrelated(p: Path, q: Path) {
    p != q && !Below(p, q) && !Below(q, p)
  }

  /** Writes before deletes, and no written path below another. */
  ghost predicate Orderly(ops: seq<PushOp>) {
    forall i, j :: 0 <= i < j < |ops| && Writes(ops[j]) ==>
      !ops[i].kind.OpDelete? && (Writes(ops[i]) ==> Unrelated(ops[i].path, ops[j].path))
  }

  lemma WriteSparesRoom(h: HubState, op: PushOp, t: Times, hash: Hasher, q: Path)
    requires !op.kind.OpDelete? && (Writes(op) ==> Unrelated(op.path, q))
    ensures var h' := PushOne(h, op, FAIL, t, hash).0;
            Free(h'.files, h'.dirs, q) <==> Free(h.files, h.dirs, q)
  {
    if Writes(op) {
      WriteKeepsFree(h.files, h.dirs, op.path, FileStat(op.data, Mode(h.files, op.path), t.disk), q);
    }
  }

  /** What an op of an orderly request finds in its way was there before. */
  lemma {:induction false} RoomAsBefore(h: HubState, ops: seq<PushOp>, clock: Clock, hash: Hasher, i: nat, j: nat)
    requires Orderly(ops) && i <= j < |ops|
    ensures HasRoom(HubAt(h, ops, clock, hash, i), ops[j]) <==> HasRoom(h, ops[j])
  {
    if i > 0 && Writes(ops[j]) {
      RoomAsBefore(h, ops, clock, hash, i - 1, j);
      assert Front(ops[..i]) == ops[..i - 1] && Last(ops[..i]) == ops[i - 1];
      WriteSparesRoom(HubAt(h, ops, clock, hash, i - 1), ops[i - 1], clock(i - 1), hash, ops[j].path);
    }
  }

  /** For an orderly push with one op a path: all ops are accepted under FAIL if and
      only if, as of before the request, each names the hub's row and has room on
      the hub's disk; and then they do to the hub's digests what they say. */
  lemma PushAllUpToDate(h: HubState, ops: seq<PushOp>, clock: Clock, hash: Hasher)
    requires Consistent(h.db) && DistinctPaths(ops) && Orderly(ops)
    ensures var (h', results) := PushAll(h, ops, FAIL, clock, hash);
            && |results| == |ops|
            && (forall i :: 0 <= i < |ops| ==> JudgedOne(h.db, h, ops[i], results[i]))
            && (AllAccepted(ops, results) <==>
                forall i :: 0 <= i < |ops| ==> Acceptable(h.db, ops[i]) && HasRoom(h, ops[i]))
            && (AllAccepted(ops, results) ==> HubDigests(h'.db) == ApplyOps(HubDigests(h.db), ops, hash))
  {
    var results := PushAll(h, ops, FAIL, clock, hash).1;
    PushAllJudges(h, ops, clock, hash);
    PushAllDoes(h, ops, FAIL, clock, hash);
    forall i | 0 <= i < |ops| ensures JudgedOne(h.db, h, ops[i], results[i]) {
      assert JudgedOne(h.db, HubAt(h, ops, clock, hash, i), ops[i], results[i]);
      RoomAsBefore(h, ops, clock, hash, i, i);
    }
    AllJudgedAccepted(h, ops, results);
  }

  lemma AllJudgedAccepted(h: HubState, ops: seq<PushOp>, results: seq<PushResult>)
    requires |results| == |ops| && forall i :: 0 <= i < |ops| ==> JudgedOne(h.db, h, ops[i], results[i])
    ensures AllAccepted(ops, results) <==>
            forall i :: 0 <= i < |ops| ==> Acceptable(h.db, ops[i]) && HasRoom(h, ops[i])
  {
    if AllAccepted(ops, results) {
      forall i | 0 <= i < |ops| ensures Acceptable(h.db, ops[i]) && HasRoom(h, ops[i]) {
        assert JudgedOne(h.db, h, ops[i], results[i]);
      }
    } else if forall i :: 0 <= i < |ops| ==> Acceptable(h.db, ops[i]) && HasRoom(h, ops[i]) {
      forall i | 0 <= i < |ops| ensures results[i].path == ops[i].path && results[i].outcome.Accepted? {
        assert JudgedOne(h.db, h, ops[i], results[i]);
      }
    }
  }

  // ---- A client in step with the hub --------------------------------------------------------------

  /** Rows of the same paths with the same digests, whatever their versions. */
  ghost predicate SameContents(tree: Tree, db: Db) {
    tree.Keys == db.entries.Keys && forall p :: p in tree ==> tree[p].meta.digest == db.entries[p].meta.digest
  }

  /** The scan reports the path: its file differs, or is gone. */
  ghost predicate Reported(p: Path, files: Disk, tree: Tree, hash: Hasher) {
    (p in files && Differs(p, files, tree, hash)) || (p in tree && p !in files)
  }

  /** The client knows the hub's version of every path it reports. */
  ghost predicate KnowsVersions(files: Disk, tree: Tree, db: Db, hash: Hasher) {
    forall p :: Reported(p, files, tree, hash) && p in tree && p in db.entries ==>
      tree[p].version == db.entries[p].version
  }

  /** Nothing on the hub's disk is in the way of a file the client changed. */
  ghost predicate NothingInTheWay(files: Disk, tree: Tree, h: HubState, hash: Hasher) {
    forall p :: p in files && Differs(p, files, tree, hash) ==> Free(h.files, h.dirs, p)
  }

  /** What an op of the scan says: a path that was reported, a write or not, and
      whether it is acceptable. */
  ghost predicate SaysOf(op: PushOp, write: bool, files: Disk, tree: Tree, db: Db, hash: Hasher) {
    && Reported(op.path, files, tree, hash)
    && (Writes(op) <==> write) && (write <==> op.path in files)
    && (op.path in tree ==> op.path in db.entries)
    && (Acceptable(db, op) <==> (op.path in tree ==> tree[op.path].version == db.entries[op.path].version))
  }

  lemma ChangeSays(c: LocalChange, files: Disk, tree: Tree, db: Db, hash: Hasher)
    requires SameContents(tree, db)
    requires c.path in files && Differs(c.path, files, tree, hash) && c == ChangeOf(c.path, files, tree, hash)
    ensures SaysOf(ChangeOp(c), true, files, tree, db, hash)
  {}

  lemma DeletionSays(d: LocalDeletion, files: Disk, tree: Tree, db: Db, hash: Hasher)
    requires SameContents(tree, db)
    requires d.path in tree && d.path !in files && d.hub == tree[d.path]
    ensures SaysOf(DeletionOp(d), false, files, tree, db, hash)
  {}

  /** The op for a reported path is acceptable iff its row has the hub's version. */
  lemma OpAcceptable(changes: seq<LocalChange>, deletions: seq<LocalDeletion>, files: Disk, tree: Tree, db: Db,
                     hash: Hasher, i: nat)
    requires IsLocalScan(changes, deletions, files, tree, hash) && SameContents(tree, db)
    requires i < |changes| + |deletions|
    ensures SaysOf(OpsOf(changes, deletions)[i], i < |changes|, files, tree, db, hash)
  {
    if i < |changes| {
      assert changes[i] in changes;
      ChangeSays(changes[i], files, tree, db, hash);
    } else {
      assert deletions[i - |changes|] in deletions;
      DeletionSays(deletions[i - |changes|], files, tree, db, hash);
    }
  }

  /** What a scan of real files reports makes an orderly push. */
  lemma ScanIsOrderly(changes: seq<LocalChange>, deletions: seq<LocalDeletion>, files: Disk, tree: Tree, hash: Hasher)
    requires IsLocalScan(changes, deletions, files, tree, hash) && Treelike(files, {})
    ensures Orderly(OpsOf(changes, deletions))
  {
    var ops := OpsOf(changes, deletions);
    forall i, j | 0 <= i < j < |ops| && Writes(ops[j])
      ensures !ops[i].kind.OpDelete? && (Writes(ops[i]) ==> Unrelated(ops[i].path, ops[j].path))
    {
      assert changes[i] in changes && changes[j] in changes;
      NoFileAboveFile(files, {}, ops[i].path);
      NoFileAboveFile(files, {}, ops[j].path);
      assert ops[i].path in files && ops[j].path in files;
    }
  }

  /** The whole scan is acceptable and has room iff versions and disk say so. */
  lemma AcceptableIffKnown(h: HubState, changes: seq<LocalChange>, deletions: seq<LocalDeletion>, files: Disk,
                           tree: Tree, hash: Hasher)
    requires IsLocalScan(changes, deletions, files, tree, hash) && SameContents(tree, h.db)
    ensures var ops := OpsOf(changes, deletions);
            (forall i :: 0 <= i < |ops| ==> Acceptable(h.db, ops[i]) && HasRoom(h, ops[i])) <==>
            KnowsVersions(files, tree, h.db, hash) && NothingInTheWay(files, tree, h, hash)
  {
    var ops := OpsOf(changes, deletions);
    if KnowsVersions(files, tree, h.db, hash) && NothingInTheWay(files, tree, h, hash) {
      forall i | 0 <= i < |ops| ensures Acceptable(h.db, ops[i]) && HasRoom(h, ops[i]) {
        OpAcceptable(changes, deletions, files, tree, h.db, hash, i);
      }
    }
    if forall i :: 0 <= i < |ops| ==> Acceptable(h.db, ops[i]) && HasRoom(h, ops[i]) {
      forall p | Reported(p, files, tree, hash)
        ensures p in tree ==> tree[p].version == h.db.entries[p].version
        ensures p in files ==> Free(h.files, h.dirs, p)
      {
        var i := OpFor(changes, deletions, files, tree, hash, p);
        OpAcceptable(changes, deletions, files, tree, h.db, hash, i);
      }
      assert forall p :: p in files && Differs(p, files, tree, hash) ==> Reported(p, files, tree, hash);
    }
  }

  lemma InSyncDigests(db: Db, changes: seq<LocalChange>, deletions: seq<LocalDeletion>, files: Disk, tree: Tree,
                      hash: Hasher)
    requires IsLocalScan(changes, deletions, files, tree, hash) && SameContents(tree, db)
    requires HonestStats(files, tree, hash)
    ensures ApplyOps(HubDigests(db), OpsOf(changes, deletions), hash) == LocalDigests(files, hash)
  {
    assert HubDigests(db) == TreeDigests(tree);
    OpsDescribeDifference(changes, deletions, files, tree, hash);
  }

  /** A scan's push is judged op by op against the state before it. */
  lemma ScanJudged(h: HubState, changes: seq<LocalChange>, deletions: seq<LocalDeletion>, files: Disk, tree: Tree,
                   clock: Clock, hash: Hasher)
    requires Consistent(h.db)
    requires IsLocalScan(changes, deletions, files, tree, hash) && Treelike(files, {})
    ensures var ops := OpsOf(changes, deletions);
            var (h', results) := PushAll(h, ops, FAIL, clock, hash);
            && |results| == |ops|
            && (forall i :: 0 <= i < |ops| ==> JudgedOne(h.db, h, ops[i], results[i]))
            && (AllAccepted(ops, results) <==>
                forall i :: 0 <= i < |ops| ==> Acceptable(h.db, ops[i]) && HasRoom(h, ops[i]))
            && (AllAccepted(ops, results) ==> HubDigests(h'.db) == ApplyOps(HubDigests(h.db), ops, hash))
  {
    OpsDistinct(changes, deletions, files, tree, hash);
    ScanIsOrderly(changes, deletions, files, tree, hash);
    PushAllUpToDate(h, OpsOf(changes, deletions), clock, hash);
  }

  /** End to end, for a client whose tree has the hub's paths and digests: its whole
      push is accepted under FAIL if and only if it has the hub's version of every
      path it reports and nothing on the hub's disk is in the way of a file it
      changed; and then, if its stat cache is honest, the hub has exactly the
      client's files. */
  lemma {:induction false} InSyncPushTransfers(h: HubState, changes: seq<LocalChange>, deletions: seq<LocalDeletion>,
                                               files: Disk, tree: Tree, clock: Clock, hash: Hasher)
    requires Consistent(h.db) && SameContents(tree, h.db)
    requires IsLocalScan(changes, deletions, files, tree, hash) && Treelike(files, {})
    ensures var ops := OpsOf(changes, deletions);
            var (h', results) := PushAll(h, ops, FAIL, clock, hash);
            && (AllAccepted(ops, results) <==>
                KnowsVersions(files, tree, h.db, hash) && NothingInTheWay(files, tree, h, hash))
            && (AllAccepted(ops, results) && HonestStats(files, tree, hash) ==>
                HubDigests(h'.db) == LocalDigests(files, hash))
  {
    ScanJudged(h, changes, deletions, files, tree, clock, hash);
    AcceptableIffKnown(h, changes, deletions, files, tree, hash);
    if HonestStats(files, tree, hash) {
      InSyncDigests(h.db, changes, deletions, files, tree, hash);
    }
  }

  /** The client's rows of the paths it pushed have the hub's versions; rows it did not
      push have theirs, if they had them before. */
  ghost predicate CaughtUp(tree: Tree, tree': Tree, db: Db, db': Db, files: Disk, hash: Hasher) {
    forall p :: CaughtUpAt(tree, tree', db, db', files, hash, p)
  }

  ghost predicate CaughtUpAt(tree: Tree, tree': Tree, db: Db, db': Db, files: Disk, hash: Hasher, p: Path) {
    p in tree' && p in db'.entries
    && (Reported(p, files, tree, hash)
        || (p in tree && p in db.entries && tree[p].version == db.entries[p].version)) ==>
      tree'[p].version == db'.entries[p].version
  }

  /** A path the push does not mention. */
  lemma UnreportedStays(h: HubState, changes: seq<LocalChange>, deletions: seq<LocalDeletion>, files: Disk, tree: Tree,
                        clock: Clock, hash: Hasher, p: Path)
    requires Consistent(h.db) && IsLocalScan(changes, deletions, files, tree, hash)
    requires !Reported(p, files, tree, hash)
    ensures var ops := OpsOf(changes, deletions);
            var (h', results) := PushAll(h, ops, FAIL, clock, hash);
            SameRow(h'.db.entries, h.db.entries, p)
    ensures var ops := OpsOf(changes, deletions);
            var results := PushAll(h, ops, FAIL, clock, hash).1;
            AllAccepted(ops, results) ==>
              var tree' := AcknowledgeAll(tree, results, changes, deletions);
              (p in tree' <==> p in tree) && (p in tree ==> tree'[p] == tree[p])
  {
    var ops := OpsOf(changes, deletions);
    OpsDistinct(changes, deletions, files, tree, hash);
    PushAllJudges(h, ops, clock, hash);
    NoOpFor(changes, deletions, files, tree, hash, p);
    var results := PushAll(h, ops, FAIL, clock, hash).1;
    assert !Mentions(ops, p);
    if AllAccepted(ops, results) {
      forall r | r in results ensures r.outcome.Accepted? && r.path != p {
        var i :| 0 <= i < |results| && results[i] == r;
      }
      AcknowledgeAt(tree, results, changes, deletions, p);
    }
  }

  /** A path the push mentions. */
  lemma ReportedCatchesUp(h: HubState, changes: seq<LocalChange>, deletions: seq<LocalDeletion>, files: Disk,
                          tree: Tree, clock: Clock, hash: Hasher, p: Path)
    requires Consistent(h.db) && IsLocalScan(changes, deletions, files, tree, hash)
    requires Reported(p, files, tree, hash)
    requires AllAccepted(OpsOf(changes, deletions), PushAll(h, OpsOf(changes, deletions), FAIL, clock, hash).1)
    ensures var (h', results) := PushAll(h, OpsOf(changes, deletions), FAIL, clock, hash);
            var tree' := AcknowledgeAll(tree, results, changes, deletions);
            && (p in tree' <==> p in h'.db.entries)
            && (p in tree' && p in h'.db.entries ==> tree'[p].version == h'.db.entries[p].version)
  {
    var ops := OpsOf(changes, deletions);
    OpsDistinct(changes, deletions, files, tree, hash);
    RowsAnswered(h, ops, FAIL, clock, hash);
    var (h', results) := PushAll(h, ops, FAIL, clock, hash);
    var i := OpFor(changes, deletions, files, tree, hash, p);
    RowsAcknowledged(tree, results, changes, deletions, i);
    assert RowAnswered(h'.db.entries, ops[i], results[i]);
  }

  lemma {:induction false} AcknowledgedDigests(tree: Tree, results: seq<PushResult>, changes: seq<LocalChange>,
                                               deletions: seq<LocalDeletion>, files: Disk, hash: Hasher, p: Path)
    requires IsLocalScan(changes, deletions, files, tree, hash)
    requires AllAccepted(OpsOf(changes, deletions), results)
    ensures SameDigest(TreeDigests(AcknowledgeAll(tree, results, changes, deletions)),
                       ApplyOps(TreeDigests(tree), OpsOf(changes, deletions), hash), p)
  {
    OpsAt(changes, deletions, files, tree, hash, p);
    AcceptedAt(tree, results, changes, deletions, p);
    if FindChange(changes, p).None? {
      if p in files {
        NotDeleted(changes, deletions, files, tree, hash, p);
        assert Differs(p, files, tree, hash) ==> ChangeOf(p, files, tree, hash) in changes;
      } else if p in tree {
        assert LocalDeletion(p, tree[p]) in deletions;
        var i :| 0 <= i < |deletions| && deletions[i] == LocalDeletion(p, tree[p]);
        assert IsDeletion(deletions, p);
      }
    }
  }

  lemma SameFromDigests(tree: Tree, db: Db)
    ensures SameContents(tree, db) <==> TreeDigests(tree) == HubDigests(db)
  {
    assert TreeDigests(tree).Keys == tree.Keys && HubDigests(db).Keys == db.entries.Keys;
    if TreeDigests(tree) == HubDigests(db) {
      forall p | p in tree ensures tree[p].meta.digest == db.entries[p].meta.digest {
        assert TreeDigests(tree)[p] == HubDigests(db)[p];
      }
    }
  }

  /** Acknowledging a whole push does to the client's digests what its ops say. */
  lemma AcknowledgedAsSaid(tree: Tree, results: seq<PushResult>, changes: seq<LocalChange>,
                           deletions: seq<LocalDeletion>, files: Disk, hash: Hasher)
    requires IsLocalScan(changes, deletions, files, tree, hash) && AllAccepted(OpsOf(changes, deletions), results)
    ensures TreeDigests(AcknowledgeAll(tree, results, changes, deletions))
            == ApplyOps(TreeDigests(tree), OpsOf(changes, deletions), hash)
  {
    forall p ensures SameDigest(TreeDigests(AcknowledgeAll(tree, results, changes, deletions)),
                                ApplyOps(TreeDigests(tree), OpsOf(changes, deletions), hash), p)
    {
      AcknowledgedDigests(tree, results, changes, deletions, files, hash, p);
    }
    SameEverywhere(TreeDigests(AcknowledgeAll(tree, results, changes, deletions)),
                   ApplyOps(TreeDigests(tree), OpsOf(changes, deletions), hash));
  }

  lemma SameEverywhere(a: Digests, b: Digests)
    requires forall p :: SameDigest(a, b, p)
    ensures a == b
  {
    forall p
      ensures p in a <==> p in b
      ensures p in a && p in b ==> a[p] == b[p]
    {
      assert SameDigest(a, b, p);
    }
  }

  /** The client's digests are the hub's again. */
  lemma DigestsCatchUp(h: HubState, changes: seq<LocalChange>, deletions: seq<LocalDeletion>, files: Disk, tree: Tree,
                       clock: Clock, hash: Hasher)
    requires SameContents(tree, h.db) && IsLocalScan(changes, deletions, files, tree, hash)
    requires AllAccepted(OpsOf(changes, deletions), PushAll(h, OpsOf(changes, deletions), FAIL, clock, hash).1)
    ensures var (h', results) := PushAll(h, OpsOf(changes, deletions), FAIL, clock, hash);
            SameContents(AcknowledgeAll(tree, results, changes, deletions), h'.db)
  {
    var (h', results) := PushAll(h, OpsOf(changes, deletions), FAIL, clock, hash);
    PushAllDoes(h, OpsOf(changes, deletions), FAIL, clock, hash);
    SameFromDigests(tree, h.db);
    AcknowledgedAsSaid(tree, results, changes, deletions, files, hash);
    SameFromDigests(AcknowledgeAll(tree, results, changes, deletions), h'.db);
  }

  /** The loop closes: once a client in step had its whole push accepted and took the
      answer, it is in step again, and it has the hub's version of every path it
      pushed, besides those it had before. */
  lemma AcceptedPushCatchesUp(h: HubState, changes: seq<LocalChange>, deletions: seq<LocalDeletion>, files: Disk,
                              tree: Tree, clock: Clock, hash: Hasher)
    requires Consistent(h.db) && SameContents(tree, h.db)
    requires IsLocalScan(changes, deletions, files, tree, hash)
    requires AllAccepted(OpsOf(changes, deletions), PushAll(h, OpsOf(changes, deletions), FAIL, clock, hash).1)
    ensures var (h', results) := PushAll(h, OpsOf(changes, deletions), FAIL, clock, hash);
            var tree' := AcknowledgeAll(tree, results, changes, deletions);
            SameContents(tree', h'.db) && CaughtUp(tree, tree', h.db, h'.db, files, hash)
  {
    var (h', results) := PushAll(h, OpsOf(changes, deletions), FAIL, clock, hash);
    var tree' := AcknowledgeAll(tree, results, changes, deletions);
    DigestsCatchUp(h, changes, deletions, files, tree, clock, hash);
    forall p ensures CaughtUpAt(tree, tree', h.db, h'.db, files, hash, p) {
      if Reported(p, files, tree, hash) {
        ReportedCatchesUp(h, changes, deletions, files, tree, clock, hash, p);
      } else {
        UnreportedStays(h, changes, deletions, files, tree, clock, hash, p);
      }
    }
  }

  /** Rows of the same paths, digests and versions. */
  ghost predicate Current(tree: Tree, db: Db) {
    SameContents(tree, db) && forall p :: p in tree && p in db.entries ==> tree[p].version == db.entries[p].version
  }

  /** The push of a client that is current is accepted whole if and only if nothing on
      the hub's disk is in the way. */
  lemma CurrentPushAccepted(h: HubState, changes: seq<LocalChange>, deletions: seq<LocalDeletion>, files: Disk,
                            tree: Tree, clock: Clock, hash: Hasher)
    requires Consistent(h.db) && Current(tree, h.db)
    requires IsLocalScan(changes, deletions, files, tree, hash) && Treelike(files, {})
    ensures AllAccepted(OpsOf(changes, deletions), PushAll(h, OpsOf(changes, deletions), FAIL, clock, hash).1) <==>
            NothingInTheWay(files, tree, h, hash)
  {
    InSyncPushTransfers(h, changes, deletions, files, tree, clock, hash);
  }

  /** And then the client is current again, so that with nothing in the way its next
      push is accepted whole too, whatever it edits in between, and the next. */
  lemma CurrentStaysCurrent(h: HubState, changes: seq<LocalChange>, deletions: seq<LocalDeletion>, files: Disk,
                            tree: Tree, clock: Clock, hash: Hasher)
    requires Consistent(h.db) && Current(tree, h.db)
    requires IsLocalScan(changes, deletions, files, tree, hash) && Treelike(files, {})
    requires NothingInTheWay(files, tree, h, hash)
    ensures var (h', results) := PushAll(h, OpsOf(changes, deletions), FAIL, clock, hash);
            Consistent(h'.db) && Current(AcknowledgeAll(tree, results, changes, deletions), h'.db)
  {
    CurrentPushAccepted(h, changes, deletions, files, tree, clock, hash);
    AcceptedPushCatchesUp(h, changes, deletions, files, tree, clock, hash);
    OpsDistinct(changes, deletions, files, tree, hash);
    var (h', results) := PushAll(h, OpsOf(changes, deletions), FAIL, clock, hash);
    PushAllJudges(h, OpsOf(changes, deletions), clock, hash);
    var tree' := AcknowledgeAll(tree, results, changes, deletions);
    forall p | p in tree' && p !in tree ensures Reported(p, files, tree, hash) {
      if !Reported(p, files, tree, hash) {
        UnreportedStays(h, changes, deletions, files, tree, clock, hash, p);
      }
    }
    CaughtUpIsCurrent(tree, tree', h.db, h'.db, files, hash);
  }

  lemma CaughtUpIsCurrent(tree: Tree, tree': Tree, db: Db, db': Db, files: Disk, hash: Hasher)
    requires Current(tree, db) && SameContents(tree', db') && CaughtUp(tree, tree', db, db', files, hash)
    requires forall p :: p in tree' && p !in tree ==> Reported(p, files, tree, hash)
    ensures Current(tree', db')
  {
    forall p | p in tree' && p in db'.entries ensures tree'[p].version == db'.entries[p].version {
      assert CaughtUpAt(tree, tree', db, db', files, hash, p);
    }
  }

  /** Replacing a directory of the hub by a file is always refused, in whatever step
      the client is: the create comes before the deletes. */
  lemma DirectoryNotReplaced(h: HubState, changes: seq<LocalChange>, deletions: seq<LocalDeletion>, files: Disk,
                             tree: Tree, clock: Clock, hash: Hasher, p: Path, q: Path)
    requires Consistent(h.db) && IsLocalScan(changes, deletions, files, tree, hash) && Treelike(files, {})
    requires p in files && Differs(p, files, tree, hash) && q in h.files && Below(q, p)
    ensures var ops := OpsOf(changes, deletions);
            !AllAccepted(ops, PushAll(h, ops, FAIL, clock, hash).1)
  {
    var ops := OpsOf(changes, deletions);
    ScanJudged(h, changes, deletions, files, tree, clock, hash);
    var i := OpFor(changes, deletions, files, tree, hash, p);
    assert p in Above(q) && p in Directories(h.files, h.dirs);
    assert !HasRoom(h, ops[i]);
  }

  /** A client that has just taken a snapshot has every row at the snapshot's
      version: under FAIL its op on a hub path is accepted if and only if the hub
      last wrote that path at exactly that version, and a write has room. */
  lemma {:induction false} SnapshotPushRefused(h: HubState, changes: seq<LocalChange>, deletions: seq<LocalDeletion>,
                                               files: Disk, tree: Tree, v: nat, clock: Clock, hash: Hasher)
    requires Consistent(h.db) && tree == Sync.Labelled(map p | p in h.db.entries :: h.db.entries[p].meta, v)
    requires IsLocalScan(changes, deletions, files, tree, hash) && Treelike(files, {})
    ensures var ops := OpsOf(changes, deletions);
            var results := PushAll(h, ops, FAIL, clock, hash).1;
            && |results| == |ops|
            && forall i :: 0 <= i < |ops| ==>
                 (results[i].outcome.Accepted? <==>
                  && (ops[i].path in h.db.entries ==> h.db.entries[ops[i].path].version == v)
                  && (ops[i].path in files ==> Free(h.files, h.dirs, ops[i].path)))
  {
    var ops := OpsOf(changes, deletions);
    ScanJudged(h, changes, deletions, files, tree, clock, hash);
    var results := PushAll(h, ops, FAIL, clock, hash).1;
    forall i | 0 <= i < |ops|
      ensures results[i].outcome.Accepted? <==>
              && (ops[i].path in h.db.entries ==> h.db.entries[ops[i].path].version == v)
              && (ops[i].path in files ==> Free(h.files, h.dirs, ops[i].path))
    {
      assert JudgedOne(h.db, h, ops[i], results[i]);
      OpAcceptable(changes, deletions, files, tree, h.db, hash, i);
    }
  }
}
