/** What the replication machine's connections deliver and its clients hold. */
module Convergence {
  import opened Types
  import opened ChangeLog
  import opened HubStore
  import opened Sync
  import opened Replication

  // ---- Every run keeps the invariant ----------------------------------------------

  lemma {:induction false} RunKeeps(s: State, acts: seq<Action>)
    requires Inv(s)
    ensures Inv(Run(s, acts))
    decreases |acts|
  {
    if acts != [] {
      NextKeeps(s, acts[0]);
      RunKeeps(Next(s, acts[0]), acts[1..]);
    }
  }

  lemma InitInv(ids: set<nat>)
    ensures Inv(Init(ids))
  {
    assert Columns(EMPTY.entries) == map[];
  }

  lemma {:induction false} Reachable(ids: set<nat>, acts: seq<Action>)
    ensures Inv(Run(Init(ids), acts))
  {
    InitInv(ids);
    RunKeeps(Init(ids), acts);
  }

  // ---- What a connection delivers -----------------------------------------------

  lemma {:induction false} KeepMember(log: Log, i: nat, j: nat, holes: set<nat>, v: nat)
    requires Dense(log) && i < v <= j <= |log|
    ensures log[v - 1] in Keep(log, i, j, holes) <==> v !in holes
  {
    if v < j {
      KeepMember(log, i, j - 1, holes, v);
    } else {
      forall x | x in Keep(log, i, j - 1, holes) ensures x.version < v {
        KeepBelow(log, i, j - 1, holes, x);
      }
    }
  }

  lemma {:induction false} KeepBelow(log: Log, i: nat, j: nat, holes: set<nat>, e: ChangeEntry)
    requires Dense(log) && i <= j <= |log| && e in Keep(log, i, j, holes)
    ensures e.version <= j
  {
    if e in Keep(log, i, j - 1, holes) {
      KeepBelow(log, i, j - 1, holes, e);
    }
  }

  /** Log records above since, each once, in version order. */
  ghost predicate InOrder(log: Log, k: Conn) {
    && k.since <= k.end <= |log|
    && forall d :: 0 <= d < |k.sent| ==>
      && Before(k.sent, k.since, d) < k.sent[d].version <= k.end
      && k.sent[d] == log[k.sent[d].version - 1]
  }

  /** A record up to the last one written is left out if and only if its broadcast
      found the channel full and the backfill had not covered it. */
  ghost predicate OnlyOverflowMissing(log: Log, k: Conn)
    requires k.end <= |log|
  {
    forall v: nat :: k.since < v <= k.end ==>
      (Record(log, v) in k.sent <==> !(k.phase.Live? && v in k.dropped && v > k.upto))
  }

  function Record(log: Log, v: nat): ChangeEntry
    requires 0 < v <= |log|
  {
    log[v - 1]
  }

  ghost predicate Delivers(log: Log, k: Conn) {
    && InOrder(log, k)
    && OnlyOverflowMissing(log, k)
    && (k.dropped == {} ==> k.sent == log[k.since..k.end])
  }

  lemma WrittenInOrder(log: Log, hubVersion: nat, k: Conn)
    requires Dense(log) && Written(log, hubVersion, k)
    ensures InOrder(log, k)
  {
    forall d | 0 <= d < |k.sent|
      ensures Before(k.sent, k.since, d) < k.sent[d].version <= k.end && k.sent[d] == log[k.sent[d].version - 1]
    {
      KeepOrder(log, k.since, k.end, k.missing, d);
    }
  }

  lemma WrittenMembers(log: Log, hubVersion: nat, k: Conn)
    requires Dense(log) && Written(log, hubVersion, k)
    requires forall v: nat :: k.since < v <= k.end ==>
      (v in k.missing <==> k.phase.Live? && v in k.dropped && v > k.upto)
    ensures OnlyOverflowMissing(log, k)
  {
    forall v: nat | k.since < v <= k.end
      ensures Record(log, v) in k.sent <==> !(k.phase.Live? && v in k.dropped && v > k.upto)
    {
      KeepMember(log, k.since, k.end, k.missing, v);
    }
  }

  lemma ConnDelivers(log: Log, announced: nat, hubVersion: nat, overflowed: set<nat>, k: Conn)
    requires Dense(log) && ConnInv(log, announced, hubVersion, overflowed, k)
    ensures Delivers(log, k)
  {
    WrittenInOrder(log, hubVersion, k);
    WrittenMembers(log, hubVersion, k);
    if k.dropped == {} {
      assert k.missing == {};
      KeepAll(log, k.since, k.end);
    }
  }

  /** Every open connection of every run delivers exactly that; without overflow
      it is the whole stretch of log above since. */
  lemma {:induction false} DeliveredExactly(ids: set<nat>, acts: seq<Action>, c: nat)
    requires var s := Run(Init(ids), acts); c in s.clients && s.clients[c].conn.Some?
    ensures var s := Run(Init(ids), acts);
            Delivers(s.db.log, s.clients[c].conn.value)
  {
    Reachable(ids, acts);
    var s := Run(Init(ids), acts);
    var k := s.clients[c];
    ConnDelivers(s.db.log, s.announced, k.hubVersion, k.overflowed, k.conn.value);
  }

  // ---- What a client holds ---------------------------------------------------------

  /** Replaying the log after version v on top of a tree of any later version w
      gives, from w on, the fold of the whole log (versions aside). */
  lemma SnapshotReplay(log: Log, v: nat, w: nat, u: nat)
    requires v <= w <= u <= |log|
    ensures Metas(Replay(Fold(log[..w]), log[v..u])) == Metas(Fold(log[..u]))
  {
    var a, b := Replay(Fold(log[..w]), log[v..u]), Fold(log[..u]);
    forall p
      ensures p in a <==> p in b
      ensures p in a ==> a[p].meta == b[p].meta
    {
      SnapshotReplayAt(log, v, w, u, p);
    }
    assert Metas(a).Keys == Metas(b).Keys;
  }

  /** The last record for p in a longer stretch is that of its tail, if it has one. */
  lemma LastForSlice(log: Log, i: nat, m: nat, j: nat, p: Path)
    requires i <= m <= j <= |log|
    ensures LastFor(log[i..j], p) == if LastFor(log[m..j], p).Some? then LastFor(log[m..j], p)
      else LastFor(log[i..m], p)
  {
    assert log[i..j] == log[i..m] + log[m..j];
    LastForConcat(log[i..m], log[m..j], p);
  }

  lemma SnapshotReplayAt(log: Log, v: nat, w: nat, u: nat, p: Path)
    requires v <= w <= u <= |log|
    ensures var a, b := Replay(Fold(log[..w]), log[v..u]), Fold(log[..u]);
            (p in a <==> p in b) && (p in a ==> a[p].meta == b[p].meta)
  {
    assert log[..w] == log[0..w] && log[..u] == log[0..u];
    ReplayAt(Fold(log[..w]), log[v..u], p);
    ReplayAt(map[], log[..w], p);
    ReplayAt(map[], log[..u], p);
    LastForSlice(log, 0, v, u, p);
    LastForSlice(log, 0, v, w, p);
    LastForSlice(log, v, w, u, p);
  }

  /** Every client in every run: its tree is its snapshot's tree with the records
      after the snapshot's stamp up to hub_version replayed, less the lost ones,
      and only overflowed records are lost. */
  lemma {:induction false} ReplicaTree(ids: set<nat>, acts: seq<Action>, c: nat)
    requires c in Run(Init(ids), acts).clients
    ensures var s := Run(Init(ids), acts);
            var log, k := s.db.log, s.clients[c];
            && k.stamp <= k.hubVersion <= |log| && k.stamp <= k.base <= |log|
            && Metas(k.tree) == Metas(Replay(Fold(log[..k.base]), Keep(log, k.stamp, k.hubVersion, k.lost)))
            && k.lost <= k.overflowed
  {
    Reachable(ids, acts);
  }

  /** Convergence: with no overflow, the tree of a client that has caught up with
      its snapshot's own horizon is the fold of the log up to its hub_version.
      A client that only ever streamed agrees on the version column as well. */
  lemma {:induction false} Converges(ids: set<nat>, acts: seq<Action>, c: nat)
    requires var s := Run(Init(ids), acts);
             c in s.clients && s.clients[c].overflowed == {} && s.clients[c].base <= s.clients[c].hubVersion
    ensures var s := Run(Init(ids), acts);
            var log, k := s.db.log, s.clients[c];
            && k.hubVersion <= |log|
            && Metas(k.tree) == Metas(Fold(log[..k.hubVersion]))
            && (k.base == 0 ==> k.tree == Fold(log[..k.hubVersion]))
  {
    Reachable(ids, acts);
    var s := Run(Init(ids), acts);
    var log, k := s.db.log, s.clients[c];
    assert k.lost == {};
    KeepAll(log, k.stamp, k.hubVersion);
    SnapshotReplay(log, k.stamp, k.base, k.hubVersion);
    assert log[0..k.hubVersion] == log[..k.hubVersion];
  }

  /** Nothing in flight: the handler is live with an empty channel, everything
      committed is broadcast, and the client has read what was written. */
  ghost predicate Quiescent(s: State, c: nat)
    requires c in s.clients
  {
    var k := s.clients[c].conn;
    && k.Some? && k.value.phase.Live? && k.value.queue == [] && k.value.wire == []
    && s.announced == |s.db.log|
  }

  lemma QuiescentCursor(log: Log, hubVersion: nat, k: Conn)
    requires Dense(log) && ConnInv(log, |log|, hubVersion, {}, k)
    requires k.phase.Live? && k.queue == [] && k.wire == []
    ensures hubVersion == |log|
  {
    assert k.dropped == {} && k.missing == {};
    KeepNone(log, k.taken, |log|, {});
    assert k.taken == |log| && k.end == |log|;
    KeepTail(log, k.since, k.end, {});
    if k.delivered < |k.sent| {
      EventsTail(k.sent, k.delivered);
    }
  }

  /** Then a client that lost nothing to overflow holds exactly the hub's tree. */
  lemma {:induction false} QuiescentReplicaIsHubTree(ids: set<nat>, acts: seq<Action>, c: nat)
    requires var s := Run(Init(ids), acts);
             c in s.clients && s.clients[c].overflowed == {} && Quiescent(s, c)
    ensures var s := Run(Init(ids), acts);
            && s.clients[c].hubVersion == |s.db.log|
            && Metas(s.clients[c].tree) == map p | p in s.db.entries :: s.db.entries[p].meta
  {
    Reachable(ids, acts);
    var s := Run(Init(ids), acts);
    QuiescentCursor(s.db.log, s.clients[c].hubVersion, s.clients[c].conn.value);
    Converges(ids, acts, c);
    assert s.db.log[..|s.db.log|] == s.db.log;
    assert Metas(Columns(s.db.entries)) == map p | p in s.db.entries :: s.db.entries[p].meta;
  }

  // ---- What an overflow costs --------------------------------------------------------

  lemma LossStays(db: Db, announced: nat, k: Client, act: ClientAction)
    requires Consistent(db) && ClientInv(db.log, announced, k) && act != FetchTree
    ensures k.lost <= ClientNext(db, announced, k, act).lost
  {}

  lemma {:induction false} LossStaysStep(s: State, a: Action, c: nat)
    requires Inv(s) && c in s.clients && a != ByClient(c, FetchTree)
    ensures c in Next(s, a).clients && s.clients[c].lost <= Next(s, a).clients[c].lost
  {
    if a.ByClient? && a.id == c {
      LossStays(s.db, s.announced, s.clients[c], a.act);
    }
  }

  /** A record a client once skipped is lost for good: whatever happens next,
      short of a new snapshot, the cursor is past it and it is not among the
      records the client's tree was built from. */
  lemma {:induction false} LossIsPermanent(s: State, acts: seq<Action>, c: nat, v: nat)
    requires Inv(s) && c in s.clients && v in s.clients[c].lost
    requires ByClient(c, FetchTree) !in acts
    ensures var s' := Run(s, acts);
            && Inv(s') && c in s'.clients && v in s'.clients[c].lost
            && v <= s'.clients[c].hubVersion
            && s'.db.log[v - 1] !in Keep(s'.db.log, s'.clients[c].stamp, s'.clients[c].hubVersion, s'.clients[c].lost)
    decreases |acts|
  {
    if acts == [] {
      var k := s.clients[c];
      KeepMember(s.db.log, k.stamp, k.hubVersion, k.lost, v);
    } else {
      NextKeeps(s, acts[0]);
      LossStaysStep(s, acts[0], c);
      LossIsPermanent(Next(s, acts[0]), acts[1..], c, v);
    }
  }

  // ---- One stream, in any order ----------------------------------------------------------------

  /** Where a client that has read got after a backfill up to u would resume. */
  function Cursor(u: nat, got: Log): nat {
    if got == [] then u else Last(got).version
  }

  /** A stream that breaks here loses nothing: what the client has not read, a
      subscription from its cursor sends. */
  ghost predicate BreaksSafely(log: Log, u: nat, got: Log)
    requires u <= |log|
  {
    forall v: nat :: u < v <= |log| ==> Record(log, v) in got || Record(log, v) in Since(log, Cursor(u, got))
  }

  /** received holds exactly the records above u, each once. */
  ghost predicate Shuffles(log: Log, u: nat, received: Log)
    requires u <= |log|
  {
    && |received| == |log| - u
    && (forall i :: 0 <= i < |received| ==>
        u < received[i].version <= |log| && received[i] == Record(log, received[i].version))
    && (forall i, j :: 0 <= i < j < |received| ==> received[i].version != received[j].version)
  }

  ghost predicate AllAbove(received: Log, u: nat) {
    forall e :: e in received ==> e.version > u
  }

  lemma {:induction false} AllFresh(received: Log, u: nat)
    requires AllAbove(received, u)
    ensures Fresh(received, u) == received
  {
    if received != [] {
      var e := Last(received);
      assert received == Front(received) + [e];
      assert AllAbove(Front(received), u) && e in received;
      AllFresh(Front(received), u);
    }
  }

  lemma SinceOf(log: Log, since: nat, v: nat)
    requires Dense(log) && 0 < v <= |log| && since <= |log|
    ensures Record(log, v) in Since(log, since) <==> v > since
  {
    SinceIsSuffix(log, since);
    if v > since {
      assert log[since..][v - 1 - since] == log[v - 1];
    }
    if Record(log, v) in log[since..] {
      var i :| 0 <= i < |log| - since && log[since..][i] == log[v - 1];
      assert log[since + i].version == since + i + 1;
    }
  }

  lemma VersionsDiffer(got: Log, e: ChangeEntry)
    requires forall i :: 0 <= i < |got| ==> got[i].version != e.version
    ensures e !in got
  {}

  lemma VersionTaken(log: Log, u: nat, received: Log, k: nat, m: nat)
    requires u <= |log| && Shuffles(log, u, received) && m < k < |received|
    requires forall i :: 0 <= i < k ==> received[i].version == u + i + 1
    ensures received[k].version != u + m + 1
  {
    assert received[m].version == u + m + 1;
  }

  /** If the stream is in order so far, its next record must be the next version. */
  lemma NextMustFollow(log: Log, u: nat, received: Log, k: nat)
    requires Dense(log) && u <= |log| && Shuffles(log, u, received) && k < |received|
    requires forall i :: 0 <= i < k ==> received[i].version == u + i + 1
    requires BreaksSafely(log, u, received[..k + 1])
    ensures received[k].version == u + k + 1
  {
    var v := received[k].version;
    if v <= u + k {
      VersionTaken(log, u, received, k, v - u - 1);
    } else if v > u + k + 1 {
      var got := received[..k + 1];
      assert Last(got) == received[k];
      SinceOf(log, v, u + k + 1);
      VersionsDiffer(got, Record(log, u + k + 1));
    }
  }

  lemma {:induction false} SafeIsInOrder(log: Log, u: nat, received: Log, k: nat)
    requires Dense(log) && u <= |log| && Shuffles(log, u, received) && k <= |received|
    requires AlwaysSafe(log, u, received)
    ensures forall i :: 0 <= i < k ==> received[i].version == u + i + 1
  {
    if k > 0 {
      SafeIsInOrder(log, u, received, k - 1);
      NextMustFollow(log, u, received, k - 1);
    }
  }

  /** The stream may break after any record. */
  ghost predicate AlwaysSafe(log: Log, u: nat, received: Log)
    requires u <= |log|
  {
    forall j :: 0 <= j <= |received| ==> BreaksSafely(log, u, received[..j])
  }

  lemma InOrderIsSafe(log: Log, u: nat, j: nat)
    requires Dense(log) && u + j <= |log|
    ensures BreaksSafely(log, u, log[u..][..j])
  {
    var got := log[u..][..j];
    forall v: nat | u < v <= |log| ensures Record(log, v) in got || Record(log, v) in Since(log, Cursor(u, got)) {
      if v <= u + j {
        assert got[v - u - 1] == log[v - 1];
      } else {
        assert Cursor(u, got) == u + j;
        SinceOf(log, u + j, v);
      }
    }
  }

  lemma VersionsTell(log: Log, u: nat, received: Log)
    requires Dense(log) && u <= |log| && Shuffles(log, u, received)
    requires forall i :: 0 <= i < |received| ==> received[i].version == u + i + 1
    ensures received == log[u..]
  {
    forall i | 0 <= i < |received| ensures received[i] == log[u..][i] {
      assert received[i] == Record(log, u + i + 1);
    }
  }

  /** Broadcasts out of version order are not repaired. After a backfill up to u the
      live loop writes every record it receives, in whatever order they come; the
      stream loses nothing wherever it breaks if and only if they come in order. */
  lemma {:induction false} OutOfOrderBroadcast(log: Log, u: nat, received: Log)
    requires Dense(log) && u <= |log| && Shuffles(log, u, received)
    ensures Fresh(received, u) == received
    ensures AlwaysSafe(log, u, received) <==> received == log[u..]
  {
    assert AllAbove(received, u);
    AllFresh(received, u);
    if AlwaysSafe(log, u, received) {
      SafeIsInOrder(log, u, received, |received|);
      VersionsTell(log, u, received);
    }
    if received == log[u..] {
      forall j | 0 <= j <= |received| ensures BreaksSafely(log, u, received[..j]) {
        InOrderIsSafe(log, u, j);
      }
    }
  }
}
