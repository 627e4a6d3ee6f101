/** Once commits stop, every client comes to rest on the hub's tree. */
module Quiescence {
  import opened Types
  import opened ChangeLog
  import opened HubStore
  import opened Sync
  import opened Replication
  import opened Convergence
  import Overflow

  /** What goes on by itself: broadcasts, the handler's steps, the client's reading. */
  predicate GoesOn(a: Action, c: nat) {
    a.Broadcast? || (a.ByClient? && a.id == c && a.act in {Query, SendBackfill, GoLive, TakeLive, Deliver})
  }

  ghost predicate Connected(s: State, c: nat) {
    c in s.clients && s.clients[c].conn.Some? && s.announced <= |s.db.log|
  }

  function PhaseWork(log: Log, k: Conn): nat {
    match k.phase
    case Subscribed => 2 * |Since(log, k.since)| + 2
    case Backfilling(rest) => 2 * |rest| + 1
    case Live => 0
  }

  /** Steps left: a record to announce, to take, to read. */
  ghost function Work(s: State, c: nat): nat
    requires Connected(s, c)
  {
    var k := s.clients[c].conn.value;
    3 * (|s.db.log| - s.announced) + 2 * |k.queue| + |k.wire| + PhaseWork(s.db.log, k)
  }

  lemma RestIsQuiescence(s: State, c: nat)
    requires Connected(s, c)
    ensures Work(s, c) == 0 <==> Quiescent(s, c)
  {}

  ghost predicate Stands(s: State, s': State, c: nat) {
    c in s.clients && c in s'.clients && s'.clients[c] == s.clients[c] && s'.announced == s.announced
  }

  lemma HandlerWorks(log: Log, k: Conn, act: ClientAction)
    requires act in {Query, SendBackfill, GoLive, TakeLive}
    ensures var k' := HandlerNext(log, k, act);
            || k' == k
            || 2 * |k'.queue| + |k'.wire| + PhaseWork(log, k') < 2 * |k.queue| + |k.wire| + PhaseWork(log, k)
  {}

  /** In whatever order they come, each such step of a connected client either finds
      nothing to do or leaves strictly less to do. */
  lemma EveryStepWorks(s: State, a: Action, c: nat)
    requires Connected(s, c) && GoesOn(a, c)
    ensures var s' := Next(s, a);
            Connected(s', c) && s'.db == s.db && (Stands(s, s', c) || Work(s', c) < Work(s, c))
  {
    if a.ByClient? && a.act != Deliver {
      HandlerWorks(s.db.log, s.clients[c].conn.value, a.act);
    }
  }

  /** And until the client is at rest, there is one that has something to do, and
      drops nothing. */
  lemma NextStep(s: State, c: nat) returns (a: Action)
    requires Connected(s, c) && !Quiescent(s, c)
    ensures GoesOn(a, c) && Connected(Next(s, a), c) && Next(s, a).db == s.db && Work(Next(s, a), c) < Work(s, c)
    ensures Next(s, a).clients[c].overflowed == s.clients[c].overflowed
  {
    var k := s.clients[c].conn.value;
    match k.phase {
      case Subscribed => a := ByClient(c, Query);
      case Backfilling(rest) => a := ByClient(c, if rest == [] then GoLive else SendBackfill);
      case Live =>
        if k.queue != [] {
          a := ByClient(c, TakeLive);
        } else if k.wire != [] {
          a := ByClient(c, Deliver);
        } else {
          a := Broadcast;
        }
    }
    EveryStepWorks(s, a, c);
  }

  /** Nothing is committed and nothing breaks. */
  ghost predicate Undisturbed(acts: seq<Action>, c: nat) {
    forall a :: a in acts ==> GoesOn(a, c) || a == ByClient(c, FetchTree) || a == ByClient(c, Connect)
  }

  lemma {:induction false} ComesToRest(s: State, c: nat) returns (acts: seq<Action>)
    requires Connected(s, c)
    ensures Undisturbed(acts, c) && |acts| <= Work(s, c)
    ensures var s' := Run(s, acts);
            && c in s'.clients && Quiescent(s', c) && s'.db == s.db
            && s'.clients[c].overflowed == s.clients[c].overflowed
    decreases Work(s, c)
  {
    if Quiescent(s, c) {
      acts := [];
    } else {
      var a := NextStep(s, c);
      var rest := ComesToRest(Next(s, a), c);
      acts := [a] + rest;
      assert acts[1..] == rest;
    }
  }

  lemma RunOne(s: State, a: Action)
    ensures Run(s, [a]) == Next(s, a)
  {
    assert [a][1..] == [];
  }

  lemma ConnectsNow(s: State, c: nat)
    requires Inv(s) && c in s.clients && s.clients[c].conn.None? && s.clients[c].pending.None?
    ensures var s' := Next(s, ByClient(c, Connect));
            Connected(s', c) && s'.db == s.db && s'.clients[c].overflowed == s.clients[c].overflowed
  {}

  lemma FetchesFirst(s: State, c: nat)
    requires Inv(s) && c in s.clients && s.clients[c].conn.None? && s.clients[c].pending.Some?
    ensures var s' := Next(s, ByClient(c, FetchTree));
            && c in s'.clients && s'.clients[c].conn.None? && s'.clients[c].pending.None?
            && s'.db == s.db && s'.clients[c].overflowed == {}
  {}

  /** A client that is not connected fetches the tree it asked for, if it asked for
      one, and connects. */
  lemma Connects(s: State, c: nat) returns (acts: seq<Action>)
    requires Inv(s) && c in s.clients && s.clients[c].conn.None?
    ensures Undisturbed(acts, c)
    ensures var s' := Run(s, acts);
            Connected(s', c) && s'.db == s.db && s'.clients[c].overflowed <= s.clients[c].overflowed
  {
    if s.clients[c].pending.None? {
      acts := [ByClient(c, Connect)];
      RunOne(s, ByClient(c, Connect));
      ConnectsNow(s, c);
    } else {
      acts := [ByClient(c, FetchTree), ByClient(c, Connect)];
      Overflow.RunTwo(s, ByClient(c, FetchTree), ByClient(c, Connect));
      FetchesFirst(s, c);
      NextKeeps(s, ByClient(c, FetchTree));
      ConnectsNow(Next(s, ByClient(c, FetchTree)), c);
    }
  }

  /** After any run, once commits stop: every client comes to rest within finitely many
      steps of its own and the hub's, and if its channels never overflowed, it then
      holds exactly the hub's tree. */
  lemma {:induction false} RestIsReached(ids: set<nat>, before: seq<Action>, c: nat) returns (acts: seq<Action>)
    requires c in Run(Init(ids), before).clients
    ensures Undisturbed(acts, c)
    ensures var s, s' := Run(Init(ids), before), Run(Run(Init(ids), before), acts);
            && c in s'.clients && Quiescent(s', c) && s'.db == s.db
            && (s.clients[c].overflowed == {} ==>
                 && s'.clients[c].hubVersion == |s.db.log|
                 && Metas(s'.clients[c].tree) == map p | p in s.db.entries :: s.db.entries[p].meta)
  {
    var s := Run(Init(ids), before);
    Reachable(ids, before);
    var first: seq<Action> := [];
    if s.clients[c].conn.None? {
      first := Connects(s, c);
    }
    var s1 := Run(s, first);
    var rest := ComesToRest(s1, c);
    acts := first + rest;
    Overflow.RunConcat(s, first, rest);
    if s.clients[c].overflowed == {} {
      Overflow.RunConcat(Init(ids), before, acts);
      QuiescentReplicaIsHubTree(ids, before + acts, c);
    }
  }
}
