/** A run in which a slow subscriber loses a record for good (broadcast.go, server.go). */
module Overflow {
  import opened Types
  import opened ChangeLog
  import opened HubStore
  import opened Sync
  import opened Replication
  import C = Convergence

  /** The database after n appends of one entry. */
  function Appended(e: ChangeEntry, n: nat): Db {
    if n == 0 then EMPTY else AppendDb(Appended(e, n - 1), e)
  }

  lemma {:induction false} AppendedLog(e: ChangeEntry, n: nat)
    ensures Consistent(Appended(e, n)) && |Appended(e, n).log| == n
    ensures n > 0 ==> Appended(e, n).log[..n - 1] == Appended(e, n - 1).log
  {
    if n == 0 {
      assert Columns(EMPTY.entries) == map[];
    } else {
      AppendedLog(e, n - 1);
      AppendKeeps(Appended(e, n - 1), e);
    }
  }

  /** A client that went live on the empty hub and whose handler has taken nothing since. */
  function Filling(e: ChangeEntry, n: nat): State {
    State(Appended(e, n), n,
          map[0 := NEW_CLIENT.(conn := Some(Conn(0, Live, Appended(e, n).log, 0, [], [], 0, 0, 0, 0, 0, {}, {})))])
  }

  lemma {:induction false} RunConcat(s: State, a: seq<Action>, b: seq<Action>)
    ensures Run(s, a + b) == Run(Run(s, a), b)
    decreases |a|
  {
    if a == [] {
      assert a + b == b;
    } else {
      assert (a + b)[1..] == a[1..] + b;
      RunConcat(Next(s, a[0]), a[1..], b);
    }
  }

  lemma RunTwo(s: State, a: Action, b: Action)
    ensures Run(s, [a, b]) == Next(Next(s, a), b)
  {
    assert [a, b][1..] == [b] && [b][1..] == [];
    assert Run(Next(s, a), [b]) == Run(Next(Next(s, a), b), []);
  }

  lemma Subscribed(e: ChangeEntry) returns (acts: seq<Action>)
    ensures Run(Init({0}), acts) == Filling(e, 0)
  {
    var c, q, g := ByClient(0, Connect), ByClient(0, Query), ByClient(0, GoLive);
    acts := [c] + [q, g];
    RunConcat(Init({0}), [c], [q, g]);
    assert [c][1..] == [];
    RunTwo(Next(Init({0}), c), q, g);
    assert Since(EMPTY.log, 0) == [];
    assert Init({0}).clients == map[0 := NEW_CLIENT];
  }

  lemma OfferAllOne(k: Client, x: ChangeEntry)
    ensures OfferAll(map[0 := k], x) == map[0 := OfferTo(k, x)]
  {}

  /** Commit and broadcast, when everything was broadcast before. */
  lemma Pushed(s: State, e: ChangeEntry)
    requires s.announced == |s.db.log|
    ensures var db' := AppendDb(s.db, e);
            Next(Next(s, Commit(DoAppend(e))), Broadcast)
              == State(db', s.announced + 1, OfferAll(s.clients, db'.log[s.announced]))
  {}

  lemma FillStep(e: ChangeEntry, n: nat)
    requires n < CHANNEL_SLOTS
    ensures Next(Next(Filling(e, n), Commit(DoAppend(e))), Broadcast) == Filling(e, n + 1)
  {
    AppendedLog(e, n);
    AppendedLog(e, n + 1);
    var log, log' := Appended(e, n).log, Appended(e, n + 1).log;
    assert log' == log + [log'[n]];
    Pushed(Filling(e, n), e);
    var k := Filling(e, n).clients[0];
    OfferAllOne(k, log'[n]);
    assert OfferTo(k, log'[n]) == Filling(e, n + 1).clients[0];
  }

  lemma {:induction false} Fill(e: ChangeEntry, n: nat) returns (acts: seq<Action>)
    requires n <= CHANNEL_SLOTS
    ensures Run(Filling(e, 0), acts) == Filling(e, n)
  {
    if n == 0 {
      acts := [];
    } else {
      var before := Fill(e, n - 1);
      acts := before + [Commit(DoAppend(e)), Broadcast];
      RunConcat(Filling(e, 0), before, [Commit(DoAppend(e)), Broadcast]);
      RunTwo(Filling(e, n - 1), Commit(DoAppend(e)), Broadcast);
      FillStep(e, n - 1);
    }
  }

  const N: nat := CHANNEL_SLOTS

  /** One record more than fits was broadcast; m of the others have been delivered. */
  ghost predicate Drained(s: State, e: ChangeEntry, m: nat)
    requires m <= N
  {
    && |Appended(e, N + 1).log| == N + 1
    && s.db == Appended(e, N + 1) && s.announced == N + 1 && s.clients.Keys == {0}
    && var k, log := s.clients[0], s.db.log;
       && k.conn == Some(Conn(0, Live, log[m..N], 0, [], log[..m], m, 0, m, 0, m, {N + 1}, {}))
       && k.hubVersion == m && k.lost == {} && k.overflowed == {N + 1} && k.stamp == 0 && k.pending == None
  }

  lemma OneTooMany(e: ChangeEntry)
    ensures Drained(Next(Next(Filling(e, N), Commit(DoAppend(e))), Broadcast), e, 0)
  {
    AppendedLog(e, N);
    AppendedLog(e, N + 1);
    var log := Appended(e, N + 1).log;
    assert log[0..N] == log[..N] == Appended(e, N).log;
    assert log[N].version == N + 1;
    Pushed(Filling(e, N), e);
    var k := Filling(e, N).clients[0];
    OfferAllOne(k, log[N]);
    assert k.conn.value.queue == log[0..N] && |k.conn.value.queue| == N;
    assert log[..0] == [] && {} + {N + 1} == {N + 1};
  }

  /** One record taken and one message read, on the client alone. */
  lemma TakeOne(db: Db, announced: nat, k: Client, c: Conn, e: ChangeEntry, rest: Log)
    requires k.conn == Some(c) && c.phase.Live? && c.queue == [e] + rest && c.wire == [] && e.version > c.lastVersion
    ensures var k' := ClientNext(db, announced, ClientNext(db, announced, k, TakeLive), Deliver);
            && k'.conn == Some(c.(queue := rest, taken := e.version, sent := c.sent + [e], delivered := c.delivered + 1,
                                  missing := c.missing + Between(c.end, e.version), end := e.version))
            && k'.hubVersion == e.version && k'.lost == k.lost + Between(k.hubVersion, e.version)
            && k'.overflowed == k.overflowed && k'.stamp == k.stamp && k'.pending == k.pending
  {
    assert c.queue[0] == e && c.queue[1..] == rest;
    var k1 := ClientNext(db, announced, k, TakeLive);
    assert k1.conn.value.wire == [ToEvent(e)];
    assert [ToEvent(e)][1..] == [];
  }

  /** The same in the whole state. */
  lemma ReadOne(s: State)
    requires s.clients.Keys == {0}
    ensures var k := s.clients[0];
            var s' := Next(Next(s, ByClient(0, TakeLive)), ByClient(0, Deliver));
            && s'.db == s.db && s'.announced == s.announced && s'.clients.Keys == {0}
            && s'.clients[0] == ClientNext(s.db, s.announced, ClientNext(s.db, s.announced, k, TakeLive), Deliver)
  {}

  lemma DrainStep(s: State, e: ChangeEntry, m: nat)
    requires m < N && Drained(s, e, m)
    ensures Drained(Next(Next(s, ByClient(0, TakeLive)), ByClient(0, Deliver)), e, m + 1)
  {
    AppendedLog(e, N + 1);
    var log, k := s.db.log, s.clients[0];
    assert log[m..N] == [log[m]] + log[m + 1..N];
    assert log[..m] + [log[m]] == log[..m + 1];
    var none: set<nat> := {};
    assert none + Between(m, m + 1) == {};
    assert log[m].version == m + 1;
    ReadOne(s);
    TakeOne(s.db, s.announced, k, k.conn.value, log[m], log[m + 1..N]);
  }

  lemma {:induction false} Drain(s: State, e: ChangeEntry, m: nat) returns (acts: seq<Action>)
    requires m <= N && Drained(s, e, 0)
    ensures Drained(Run(s, acts), e, m)
  {
    if m == 0 {
      acts := [];
    } else {
      var before := Drain(s, e, m - 1);
      var take, deliver := ByClient(0, TakeLive), ByClient(0, Deliver);
      acts := before + [take, deliver];
      RunConcat(s, before, [take, deliver]);
      RunTwo(Run(s, before), take, deliver);
      DrainStep(Run(s, before), e, m - 1);
    }
  }

  /** The next record is delivered, and the dropped one is behind the cursor. */
  lemma LastStraw(s: State, e: ChangeEntry)
    requires Drained(s, e, N)
    ensures var s1 := Next(Next(s, Commit(DoAppend(e))), Broadcast);
            var s2 := Next(Next(s1, ByClient(0, TakeLive)), ByClient(0, Deliver));
            0 in s2.clients && s2.clients[0].lost == {N + 1} && s2.clients[0].hubVersion == N + 2
  {
    AppendedLog(e, N + 1);
    AppendedLog(e, N + 2);
    var log := Appended(e, N + 2).log;
    assert log[N + 1].version == N + 2;
    var s1 := Next(Next(s, Commit(DoAppend(e))), Broadcast);
    assert s1.clients[0].conn.value.queue == [log[N + 1]];
    var s2 := Next(s1, ByClient(0, TakeLive));
    assert s2.clients[0].conn.value.wire == [ToEvent(log[N + 1])];
    assert Between(N, N + 2) == {N + 1};
  }

  /** Such a run exists, whatever entry is appended: the hub outpaces a live
      subscriber by one record more than its channel holds, and that record is
      lost to it for good, whatever happens next short of a new snapshot. */
  lemma {:induction false} OverflowLosesRecord(e: ChangeEntry) returns (acts: seq<Action>)
    ensures var s := Run(Init({0}), acts);
            0 in s.clients && s.clients[0].lost == {CHANNEL_SLOTS + 1} && s.clients[0].hubVersion == CHANNEL_SLOTS + 2
    ensures forall later :: ByClient(0, FetchTree) !in later ==>
      StillLost(Run(Run(Init({0}), acts), later), CHANNEL_SLOTS + 1)
  {
    var start := Subscribed(e);
    var fill := Fill(e, N);
    var push := [Commit(DoAppend(e)), Broadcast];
    var s := Filling(e, N);
    RunTwo(s, push[0], push[1]);
    OneTooMany(e);
    var drain := Drain(Run(s, push), e, N);
    var read := [ByClient(0, TakeLive), ByClient(0, Deliver)];
    var s' := Run(Run(s, push), drain);
    LastStraw(s', e);
    RunTwo(s', push[0], push[1]);
    RunTwo(Run(s', push), read[0], read[1]);
    acts := start + (fill + (push + (drain + (push + read))));
    RunConcat(s', push, read);
    RunConcat(Run(s, push), drain, push + read);
    RunConcat(s, push, drain + (push + read));
    RunConcat(Filling(e, 0), fill, push + (drain + (push + read)));
    RunConcat(Init({0}), start, fill + (push + (drain + (push + read))));
    C.Reachable({0}, acts);
    forall later | ByClient(0, FetchTree) !in later
      ensures StillLost(Run(Run(Init({0}), acts), later), CHANNEL_SLOTS + 1)
    {
      C.LossIsPermanent(Run(Init({0}), acts), later, 0, CHANNEL_SLOTS + 1);
    }
  }

  /** The cursor is past version v and v is not among the records the client's tree
      was built from. */
  ghost predicate StillLost(s: State, v: nat) {
    && 0 in s.clients && v in s.clients[0].lost && 0 < v <= s.clients[0].hubVersion <= |s.db.log|
    && s.clients[0].stamp <= s.clients[0].hubVersion
    && s.db.log[v - 1] !in Keep(s.db.log, s.clients[0].stamp, s.clients[0].hubVersion, s.clients[0].lost)
  }
}
