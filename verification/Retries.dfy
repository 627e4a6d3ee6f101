/** Whether a drain retries its failures: exactly when its feeder's last pass
    comes late enough. */
module Retries {
  import opened Types
  import opened ChangeLog
  import opened Order
  import opened Tasks
  import opened TaskRuns

  /** Failed, with attempts left. */
  predicate Retryable(t: Table, id: Id, o: Options) {
    HasStatus(t, id, Failed) && t[id].attempts < o.maxAttempts
  }

  predicate Waiting(t: Table, id: Id, o: Options) {
    HasStatus(t, id, Pending) || Retryable(t, id, o)
  }

  /** What the feeder has seen of a row, and where the row is: a waiting row seen at
      its attempts is in the queue, the queue holds nothing else, and a running row
      is in a worker's hands with an attempt nobody has seen. */
  ghost predicate TidyAt(s: State, o: Options, id: Id) {
    && (id in s.queue ==> Waiting(s.table, id, o) && SeenAt(s.seen, id) == s.table[id].attempts)
    && (Waiting(s.table, id, o) && SeenAt(s.seen, id) >= s.table[id].attempts ==> id in s.queue)
    && (id in s.table ==> SeenAt(s.seen, id) <= s.table[id].attempts)
    && (HasStatus(s.table, id, Running) ==> SeenAt(s.seen, id) < s.table[id].attempts && InHands(s, id))
  }

  ghost predicate InHands(s: State, id: Id) {
    id in s.last && s.last[id] in s.holders && s.holders[s.last[id]].id == id
  }

  ghost predicate Distinct(queue: seq<Id>) {
    forall i, j :: 0 <= i < j < |queue| ==> queue[i] != queue[j]
  }

  ghost predicate Tidy(s: State, env: Env) {
    && Owned(s) && Unattempted(s.table) && s.table.Keys == Elements(env.ids) && env.o.maxAttempts > 0
    && (forall w :: w in s.holders ==> w in env.own)
    && Distinct(s.queue)
    && forall id :: TidyAt(s, env.o, id)
  }

  /** A process opens rows it planned itself. */
  ghost predicate Planned(s: State, env: Env) {
    Start(s, env) && forall id :: id in s.table ==> s.table[id].status.Pending?
  }

  lemma PlannedTidy(s: State, env: Env)
    requires Planned(s, env)
    ensures Tidy(s, env)
  {}

  // ---- One pass, exactly ------------------------------------------------------------

  predicate News(t: Table, id: Id, now: int, o: Options, filter: (Id, TaskRow) -> bool, seen: Seen) {
    InQueue(t, id, now, o, filter) && t[id].attempts > SeenAt(seen, id)
  }

  /** A pass emits exactly the news among its ids, and sees exactly what it emits. */
  lemma {:induction false} FetchExactly(ids: seq<Id>, t: Table, now: int, o: Options, filter: (Id, TaskRow) -> bool,
                                        seen: Seen,
                                        id: Id)
    ensures var (batch, seen') := Fetch(ids, t, now, o, filter, seen);
            && (Emits(batch, id) <==> id in ids && News(t, id, now, o, filter, seen))
            && SeenAt(seen', id) == (if Emits(batch, id) then t[id].attempts else SeenAt(seen, id))
  {
    if ids != [] {
      FetchExactly(Front(ids), t, now, o, filter, seen, id);
      FetchExactly(Front(ids), t, now, o, filter, seen, Last(ids));
      var (batch, seen') := Fetch(Front(ids), t, now, o, filter, seen);
      var (batch2, seen2) := Fetch(ids, t, now, o, filter, seen);
      assert id in ids <==> id in Front(ids) || id == Last(ids);
      if batch2 != batch {
        assert batch2 == batch + [Item(Last(ids), t[Last(ids)].attempts)];
        EmitsOne(batch, Item(Last(ids), t[Last(ids)].attempts), id);
      }
    }
  }

  lemma EmitsOne(batch: seq<Item>, item: Item, id: Id)
    ensures Emits(batch + [item], id) <==> Emits(batch, id) || item.id == id
  {
    EmitsMore(batch, item);
    if Emits(batch + [item], id) && item.id != id {
      var i :| 0 <= i < |batch + [item]| && (batch + [item])[i].id == id;
      assert batch[i].id == id;
    }
  }

  /** No id twice in one batch. */
  lemma BatchDistinct(ids: seq<Id>, t: Table, now: int, o: Options, filter: (Id, TaskRow) -> bool, seen: Seen)
    ensures Distinct(IdsOf(Fetch(ids, t, now, o, filter, seen).0))
  {
    var batch := Fetch(ids, t, now, o, filter, seen).0;
    BatchRising(ids, t, now, o, filter, seen);
    FetchSees(ids, t, now, o, filter, seen);
    forall i, j | 0 <= i < j < |IdsOf(batch)| ensures IdsOf(batch)[i] != IdsOf(batch)[j] {
      assert batch[i] in batch && batch[j] in batch;
    }
  }

  ghost predicate Rising(batch: seq<Item>, seen: Seen) {
    && (forall i :: 0 <= i < |batch| ==> batch[i].attempts <= SeenAt(seen, batch[i].id))
    && (forall i, j :: 0 <= i < j < |batch| && batch[i].id == batch[j].id ==> batch[i].attempts < batch[j].attempts)
  }

  lemma RisingOne(batch: seq<Item>, seen: Seen, item: Item)
    requires Rising(batch, seen) && item.attempts > SeenAt(seen, item.id)
    ensures Rising(batch + [item], seen[item.id := item.attempts])
  {}

  lemma {:induction false} BatchRising(ids: seq<Id>, t: Table, now: int, o: Options, filter: (Id, TaskRow) -> bool,
                                       seen: Seen)
    ensures Rising(Fetch(ids, t, now, o, filter, seen).0, Fetch(ids, t, now, o, filter, seen).1)
  {
    if ids != [] {
      BatchRising(Front(ids), t, now, o, filter, seen);
      var (batch, seen') := Fetch(Front(ids), t, now, o, filter, seen);
      var id := Last(ids);
      if InQueue(t, id, now, o, filter) && t[id].attempts > SeenAt(seen', id) {
        RisingOne(batch, seen', Item(id, t[id].attempts));
      }
    }
  }

  lemma InIds(batch: seq<Item>, id: Id)
    ensures id in IdsOf(batch) <==> Emits(batch, id)
  {
    if Emits(batch, id) {
      var i :| 0 <= i < |batch| && batch[i].id == id;
      assert IdsOf(batch)[i] == id;
    }
    if id in IdsOf(batch) {
      var i :| 0 <= i < |IdsOf(batch)| && IdsOf(batch)[i] == id;
      assert batch[i].id == id;
    }
  }

  // ---- Steps of a fresh process on its own keep order ----------------------------------

  lemma PassTidyAt(s: State, env: Env, id: Id)
    requires Tidy(s, env) && Fresh(s, env) && NoFilter(env)
    ensures TidyAt(PassOver(s, env), env.o, id)
  {
    var batch := Fetch(env.ids, s.table, s.now, env.o, env.filter, s.seen).0;
    FetchExactly(env.ids, s.table, s.now, env.o, env.filter, s.seen, id);
    InIds(batch, id);
    ElementsHas(env.ids, id);
    assert TidyAt(s, env.o, id);
    if HasStatus(s.table, id, Running) {
      HeldClaimable(s, env, s.last[id]);
    }
  }

  lemma PassTidy(s: State, env: Env)
    requires Tidy(s, env) && Fresh(s, env) && NoFilter(env)
    ensures Tidy(PassOver(s, env), env)
  {
    var s' := PassOver(s, env);
    var batch := Fetch(env.ids, s.table, s.now, env.o, env.filter, s.seen).0;
    SameOwned(s, s');
    BatchDistinct(env.ids, s.table, s.now, env.o, env.filter, s.seen);
    forall i, j | 0 <= i < j < |s'.queue| ensures s'.queue[i] != s'.queue[j] {
      if i < |s.queue| <= j {
        var id := s.queue[i];
        assert TidyAt(s, env.o, id);
        FetchExactly(env.ids, s.table, s.now, env.o, env.filter, s.seen, id);
        InIds(batch, id);
        assert s'.queue[j] == IdsOf(batch)[j - |s.queue|];
      } else if |s.queue| <= i {
        assert s'.queue[i] == IdsOf(batch)[i - |s.queue|] && s'.queue[j] == IdsOf(batch)[j - |s.queue|];
      }
    }
    forall id ensures TidyAt(s', env.o, id) {
      PassTidyAt(s, env, id);
    }
  }

  lemma WithoutOne(queue: seq<Id>, i: nat, id: Id)
    requires i < |queue| && Distinct(queue)
    ensures Distinct(queue[..i] + queue[i + 1..])
    ensures id in queue[..i] + queue[i + 1..] <==> id in queue && id != queue[i]
  {
    if id in queue && id != queue[i] {
      var k :| 0 <= k < |queue| && queue[k] == id;
      var rest := queue[..i] + queue[i + 1..];
      assert if k < i then rest[k] == id else rest[k - 1] == id;
    }
  }

  lemma TakeTidy(s: State, env: Env, w: Worker, i: nat)
    requires Tidy(s, env) && Fresh(s, env) && Allowed(s, Take(w, i), env)
    ensures Tidy(Next(s, Take(w, i), env), env)
  {
    var s' := Next(s, Take(w, i), env);
    NextOwned(s, Take(w, i), env);
    WithoutOne(s.queue, i, s.queue[i]);
    assert TidyAt(s, env.o, s.queue[i]);
    forall id ensures TidyAt(s', env.o, id) {
      assert TidyAt(s, env.o, id);
      WithoutOne(s.queue, i, id);
    }
  }

  lemma EndTidy(s: State, env: Env, w: Worker, ok: bool, result: Option<string>)
    requires Tidy(s, env) && Fresh(s, env) && Allowed(s, End(w, ok, result), env)
    ensures Tidy(Next(s, End(w, ok, result), env), env)
  {
    var s' := Next(s, End(w, ok, result), env);
    NextOwned(s, End(w, ok, result), env);
    assert Holds(s, w);
    forall id ensures TidyAt(s', env.o, id) {
      assert TidyAt(s, env.o, id);
    }
  }

  lemma BeatTidy(s: State, env: Env, w: Worker)
    requires Tidy(s, env) && Fresh(s, env) && Allowed(s, Beat(w), env)
    ensures Tidy(Next(s, Beat(w), env), env)
  {
    var s' := Next(s, Beat(w), env);
    NextOwned(s, Beat(w), env);
    assert Holds(s, w);
    forall id ensures TidyAt(s', env.o, id) {
      assert TidyAt(s, env.o, id);
    }
  }

  lemma TickTidy(s: State, env: Env, d: nat)
    requires Tidy(s, env)
    ensures Tidy(Next(s, Tick(d), env), env)
  {
    var s' := Next(s, Tick(d), env);
    SameOwned(s, s');
    forall id ensures TidyAt(s', env.o, id) {
      assert TidyAt(s, env.o, id);
    }
  }

  lemma NextTidy(s: State, a: Act, env: Env)
    requires Tidy(s, env) && Fresh(s, env) && NoFilter(env) && Allowed(s, a, env) && !a.OtherClaim?
    ensures Tidy(Next(s, a, env), env)
  {
    match a
    case Tick(d) => TickTidy(s, env, d);
    case Pass => PassTidy(s, env);
    case Take(w, i) => TakeTidy(s, env, w, i);
    case Beat(w) => BeatTidy(s, env, w);
    case End(w, ok, result) => EndTidy(s, env, w, ok, result);
    case Crash(_) =>
  }

  lemma {:induction false} RunTidy(s: State, acts: seq<Act>, env: Env)
    requires Tidy(s, env) && NoFilter(env) && Legal(s, acts, env) && OwnActs(acts) && AlwaysFresh(s, acts, env)
    ensures Tidy(Run(s, acts, env), env)
    decreases |acts|
  {
    if acts != [] {
      NextTidy(s, acts[0], env);
      RunTidy(Next(s, acts[0], env), acts[1..], env);
    }
  }

  // ---- After the last pass ---------------------------------------------------------------

  ghost predicate NothingLeft(t: Table, o: Options) {
    forall id :: !Retryable(t, id, o)
  }

  /** No row in hand or in the queue can still fail with attempts left. */
  ghost predicate Settled(s: State, o: Options) {
    && (forall w :: w in s.holders ==> LastTry(s.table, s.holders[w].id, o))
    && (forall id :: id in s.queue ==> id in s.table ==> s.table[id].attempts + 1 >= o.maxAttempts)
  }

  predicate LastTry(t: Table, id: Id, o: Options) {
    id in t ==> t[id].attempts >= o.maxAttempts
  }

  /** The feeder has returned, and every row it could still have emitted is queued. */
  ghost predicate Finishing(s: State, env: Env) {
    && s.fed && Tidy(s, env)
    && forall id :: Retryable(s.table, id, env.o) ==> id in s.queue
  }

  lemma LastPassFinishes(s: State, env: Env)
    requires Tidy(s, env) && Fresh(s, env) && NoFilter(env) && PassOver(s, env).fed
    ensures Finishing(PassOver(s, env), env)
  {
    var s' := PassOver(s, env);
    PassTidy(s, env);
    FetchSees(env.ids, s.table, s.now, env.o, env.filter, s.seen);
    forall id | Retryable(s'.table, id, env.o) ensures id in s'.queue {
      ElementsHas(env.ids, id);
      assert InQueue(s.table, id, s.now, env.o, env.filter);
      assert TidyAt(s', env.o, id);
    }
  }

  lemma TakeFinishes(s: State, env: Env, w: Worker, i: nat)
    requires Finishing(s, env) && Settled(s, env.o) && Fresh(s, env) && Allowed(s, Take(w, i), env)
    ensures Finishing(Next(s, Take(w, i), env), env) && Settled(Next(s, Take(w, i), env), env.o)
  {
    var s' := Next(s, Take(w, i), env);
    TakeTidy(s, env, w, i);
    assert TidyAt(s, env.o, s.queue[i]);
    forall id ensures Retryable(s'.table, id, env.o) ==> id in s'.queue {
      WithoutOne(s.queue, i, id);
    }
    forall id | id in s'.queue && id in s'.table ensures s'.table[id].attempts + 1 >= env.o.maxAttempts {
      WithoutOne(s.queue, i, id);
    }
    forall v | v in s'.holders ensures LastTry(s'.table, s'.holders[v].id, env.o) {
      assert v != w ==> LastTry(s.table, s.holders[v].id, env.o);
      if v != w {
        assert Holds(s, v);
      }
    }
  }

  lemma EndFinishes(s: State, env: Env, w: Worker, ok: bool, result: Option<string>)
    requires Finishing(s, env) && Settled(s, env.o) && Fresh(s, env) && Allowed(s, End(w, ok, result), env)
    ensures Finishing(Next(s, End(w, ok, result), env), env) && Settled(Next(s, End(w, ok, result), env), env.o)
  {
    EndTidy(s, env, w, ok, result);
    assert LastTry(s.table, s.holders[w].id, env.o);
    assert Holds(s, w);
  }

  lemma NextFinishes(s: State, a: Act, env: Env)
    requires Finishing(s, env) && Settled(s, env.o) && Fresh(s, env) && NoFilter(env) && Allowed(s, a, env)
      && !a.OtherClaim?
    ensures Finishing(Next(s, a, env), env) && Settled(Next(s, a, env), env.o)
  {
    match a
    case Tick(d) => TickTidy(s, env, d);
    case Take(w, i) => TakeFinishes(s, env, w, i);
    case Beat(w) => BeatTidy(s, env, w);
    case End(w, ok, result) => EndFinishes(s, env, w, ok, result);
    case Pass =>
    case Crash(_) =>
  }

  lemma {:induction false} SettledLeavesNothing(s: State, acts: seq<Act>, env: Env)
    requires Finishing(s, env) && Settled(s, env.o) && NoFilter(env)
    requires Legal(s, acts, env) && OwnActs(acts) && AlwaysFresh(s, acts, env) && Drained(Run(s, acts, env), env)
    ensures NothingLeft(Run(s, acts, env).table, env.o)
    decreases |acts|
  {
    if acts != [] {
      NextFinishes(s, acts[0], env);
      SettledLeavesNothing(Next(s, acts[0], env), acts[1..], env);
    }
  }

  // ---- Draining to the end ------------------------------------------------------------------

  /** A legal, fresh run of this process's workers to the end of the drain. */
  ghost predicate DrainsBy(s: State, acts: seq<Act>, env: Env) {
    Legal(s, acts, env) && OwnActs(acts) && AlwaysFresh(s, acts, env) && Drained(Run(s, acts, env), env)
  }

  lemma DrainsCons(s: State, a: Act, rest: seq<Act>, env: Env)
    requires Allowed(s, a, env) && !a.OtherClaim? && Fresh(s, env) && DrainsBy(Next(s, a, env), rest, env)
    ensures DrainsBy(s, [a] + rest, env) && Run(s, [a] + rest, env) == Run(Next(s, a, env), rest, env)
  {
    LegalCons(s, a, rest, env);
    assert ([a] + rest)[1..] == rest;
  }

  lemma NextFresh(s: State, a: Act, env: Env)
    requires Fresh(s, env) && Allowed(s, a, env) && (a.Take? || a.End?)
    ensures Fresh(Next(s, a, env), env)
  {}

  /** Any fed state can be drained to the end with every other task succeeding: a
      failed row that is not queued is left as it is. */
  lemma {:induction false} DrainOut(s: State, env: Env, id: Id) returns (acts: seq<Act>)
    requires s.fed && Tidy(s, env) && Fresh(s, env) && NoFilter(env) && env.own != {}
    requires HasStatus(s.table, id, Failed) && id !in s.queue
    ensures DrainsBy(s, acts, env) && HasStatus(Run(s, acts, env).table, id, Failed)
    ensures Run(s, acts, env).table[id] == s.table[id]
    decreases 2 * |s.queue| + |s.holders|
  {
    if s.holders != map[] {
      var w :| w in s.holders;
      assert Holds(s, w);
      FewerHolders(s, w);
      var rest := DrainStep(s, End(w, true, None), env, id);
      acts := [End(w, true, None)] + rest;
    } else if s.queue != [] {
      var w :| w in env.own;
      OneHolder(s, env, w);
      var rest := DrainStep(s, Take(w, 0), env, id);
      acts := [Take(w, 0)] + rest;
    } else {
      acts := [];
    }
  }

  lemma {:induction false} DrainStep(s: State, a: Act, env: Env, id: Id) returns (rest: seq<Act>)
    requires s.fed && Tidy(s, env) && Fresh(s, env) && NoFilter(env) && env.own != {}
    requires HasStatus(s.table, id, Failed) && id !in s.queue && Allowed(s, a, env) && (a.End? || (a.Take? && a.i == 0))
    requires a.End? ==> s.holders[a.w].id != id
    requires 2 * |Next(s, a, env).queue| + |Next(s, a, env).holders| < 2 * |s.queue| + |s.holders|
    ensures DrainsBy(s, [a] + rest, env) && HasStatus(Run(s, [a] + rest, env).table, id, Failed)
    ensures Run(s, [a] + rest, env).table[id] == s.table[id]
    decreases 2 * |s.queue| + |s.holders|, 0
  {
    var s' := Next(s, a, env);
    NextTidy(s, a, env);
    NextFresh(s, a, env);
    rest := DrainOut(s', env, id);
    DrainsCons(s, a, rest, env);
  }

  lemma FewerHolders(s: State, w: Worker)
    requires w in s.holders
    ensures |s.holders - {w}| == |s.holders| - 1
  {
    assert (s.holders - {w}).Keys == s.holders.Keys - {w};
    assert |s.holders.Keys| == |s.holders|;
    assert |(s.holders - {w}).Keys| == |s.holders - {w}|;
  }

  lemma OneHolder(s: State, env: Env, w: Worker)
    requires s.holders == map[] && s.queue != [] && w in env.own
    ensures var s' := Next(s, Take(w, 0), env); |s'.holders| <= 1 && |s'.queue| == |s.queue| - 1
  {
    var s' := Next(s, Take(w, 0), env);
    if s'.holders != map[] {
      assert s'.holders == map[w := Hold(s.queue[0], s.now)];
    }
  }

  // ---- When retries are guaranteed -------------------------------------------------------------

  /** Case one: a held row below the limit fails after the last pass. */
  lemma HeldRowLeft(s: State, env: Env, w: Worker) returns (acts: seq<Act>)
    requires s.fed && Tidy(s, env) && Fresh(s, env) && NoFilter(env) && env.own != {}
    requires w in s.holders && !LastTry(s.table, s.holders[w].id, env.o)
    ensures DrainsBy(s, acts, env) && !NothingLeft(Run(s, acts, env).table, env.o)
    ensures Retryable(Run(s, acts, env).table, s.holders[w].id, env.o)
  {
    var id := s.holders[w].id;
    assert Holds(s, w) && TidyAt(s, env.o, id);
    var fail := End(w, false, None);
    EndTidy(s, env, w, false, None);
    NextFresh(s, fail, env);
    var rest := DrainOut(Next(s, fail, env), env, id);
    DrainsCons(s, fail, rest, env);
    acts := [fail] + rest;
    assert Retryable(Run(s, acts, env).table, id, env.o);
  }

  /** Case two: a queued row that has more than one attempt left fails once. */
  lemma QueuedRowLeft(s: State, env: Env, i: nat) returns (acts: seq<Act>)
    requires s.fed && Tidy(s, env) && Fresh(s, env) && NoFilter(env) && env.own != {}
    requires i < |s.queue| && s.queue[i] in s.table && s.table[s.queue[i]].attempts + 1 < env.o.maxAttempts
    ensures DrainsBy(s, acts, env) && !NothingLeft(Run(s, acts, env).table, env.o)
    decreases |s.holders|
  {
    var w :| w in env.own;
    if w in s.holders {
      assert Holds(s, w) && TidyAt(s, env.o, s.queue[i]);
      var end := End(w, true, None);
      EndTidy(s, env, w, true, None);
      NextFresh(s, end, env);
      FewerHolders(s, w);
      var rest := QueuedRowLeft(Next(s, end, env), env, i);
      DrainsCons(s, end, rest, env);
      acts := [end] + rest;
    } else {
      assert TidyAt(s, env.o, s.queue[i]);
      var take := Take(w, i);
      TakeTidy(s, env, w, i);
      NextFresh(s, take, env);
      var rest := HeldRowLeft(Next(s, take, env), env, w);
      DrainsCons(s, take, rest, env);
      acts := [take] + rest;
    }
  }

  /** However the drain goes on from here, no failed row keeps an attempt. */
  ghost predicate AlwaysRetries(s: State, env: Env) {
    forall acts :: DrainsBy(s, acts, env) ==> Exhausts(s, acts, env)
  }

  ghost predicate Exhausts(s: State, acts: seq<Act>, env: Env) {
    Legal(s, acts, env) ==> NothingLeft(Run(s, acts, env).table, env.o)
  }

  lemma RetriesFrom(s: State, env: Env)
    requires Finishing(s, env) && Fresh(s, env) && NoFilter(env) && env.own != {}
    ensures AlwaysRetries(s, env) <==> Settled(s, env.o)
  {
    if Settled(s, env.o) {
      forall acts | DrainsBy(s, acts, env) ensures Exhausts(s, acts, env) {
        SettledLeavesNothing(s, acts, env);
      }
    } else {
      var acts := SomethingLeft(s, env);
      assert !Exhausts(s, acts, env);
    }
  }

  lemma SomethingLeft(s: State, env: Env) returns (acts: seq<Act>)
    requires s.fed && Tidy(s, env) && Fresh(s, env) && NoFilter(env) && env.own != {} && !Settled(s, env.o)
    ensures DrainsBy(s, acts, env) && !NothingLeft(Run(s, acts, env).table, env.o)
  {
    if w :| w in s.holders && !LastTry(s.table, s.holders[w].id, env.o) {
      acts := HeldRowLeft(s, env, w);
    } else {
      var id :| id in s.queue && id in s.table && s.table[id].attempts + 1 < env.o.maxAttempts;
      var i :| 0 <= i < |s.queue| && s.queue[i] == id;
      acts := QueuedRowLeft(s, env, i);
    }
  }

  /** A process drains alone, without a filter, rows it planned itself, its
      heartbeats fresh. Retries within the drain are guaranteed, whatever happens
      after the feeder's last pass, if and only if at that pass no row is in a
      worker's hands below the limit and none is queued with two attempts left. */
  lemma RetriesExactly(s: State, before: seq<Act>, env: Env)
    requires Planned(s, env) && NoFilter(env) && env.own != {}
    requires Legal(s, before, env) && OwnActs(before) && AlwaysFresh(s, before, env)
    requires PassOver(Run(s, before, env), env).fed
    ensures var last := PassOver(Run(s, before, env), env);
            AlwaysRetries(last, env) <==> Settled(last, env.o)
  {
    PlannedTidy(s, env);
    RunTidy(s, before, env);
    RunFresh(s, before, env);
    LastPassFinishes(Run(s, before, env), env);
    RetriesFrom(PassOver(Run(s, before, env), env), env);
  }

  lemma {:induction false} RunFresh(s: State, acts: seq<Act>, env: Env)
    requires Legal(s, acts, env) && AlwaysFresh(s, acts, env)
    ensures Fresh(Run(s, acts, env), env)
    decreases |acts|
  {
    if acts != [] {
      RunFresh(Next(s, acts[0], env), acts[1..], env);
    }
  }

  // ---- Why heartbeats must be fresh for it ------------------------------------------------------

  const PAIR: Env := LONE.(own := {0, 1})

  const STALE: State := TAKEN.(now := 31)
  const EMITTED_AGAIN: State := STALE.(queue := ["a"], seen := map["a" := 1], emitted := [Item("a", 0), Item("a", 1)])
  const BEATEN: State :=
    EMITTED_AGAIN.(table := map["a" := HELD.(heartbeat := Some(31))], holders := map[0 := Hold("a", 31)])
  const PASSED_BY: State := BEATEN.(queue := [])
  const FAILED_ONCE: State := PASSED_BY.(table := map["a" := TaskRow(Failed, 1, Some(31), None)], holders := map[])

  lemma FirstSteps()
    ensures PassOver(ONE_TASK, PAIR) == EMITTED && PassOver(STALE, PAIR) == EMITTED_AGAIN
    ensures PassOver(FAILED_ONCE, PAIR) == FAILED_ONCE.(fed := true)
  {
    FirstPass();
    assert Front(PAIR.ids) == [] && Last(PAIR.ids) == "a";
    assert Fetch([], STALE.table, 31, PAIR.o, PAIR.filter, STALE.seen) == ([], STALE.seen);
    assert InQueue(STALE.table, "a", 31, PAIR.o, PAIR.filter);
    assert IdsOf([Item("a", 1)]) == ["a"];
    assert Fetch([], FAILED_ONCE.table, 31, PAIR.o, PAIR.filter, FAILED_ONCE.seen) == ([], FAILED_ONCE.seen);
    assert [] + IdsOf([]) == [];
  }

  lemma MiddleSteps()
    ensures Next(EMITTED, Take(0, 0), PAIR) == TAKEN && Next(TAKEN, Tick(31), PAIR) == STALE
    ensures Next(EMITTED_AGAIN, Beat(0), PAIR) == BEATEN
  {
    assert EMITTED.queue[..0] + EMITTED.queue[1..] == [];
  }

  lemma LastSteps()
    ensures Next(BEATEN, Take(1, 0), PAIR) == PASSED_BY
    ensures Next(PASSED_BY, End(0, false, None), PAIR) == FAILED_ONCE
  {
    assert BEATEN.queue[..0] + BEATEN.queue[1..] == [];
    assert PASSED_BY.holders - {0} == map[];
  }

  lemma LateTail()
    ensures Legal(EMITTED_AGAIN, [Beat(0), Take(1, 0), End(0, false, None)], PAIR)
    ensures Run(EMITTED_AGAIN, [Beat(0), Take(1, 0), End(0, false, None)], PAIR) == FAILED_ONCE
  {
    MiddleSteps();
    LastSteps();
    LegalCons(PASSED_BY, End(0, false, None), [], PAIR);
    LegalCons(BEATEN, Take(1, 0), [End(0, false, None)], PAIR);
    LegalCons(EMITTED_AGAIN, Beat(0), [Take(1, 0), End(0, false, None)], PAIR);
  }

  lemma LateMiddle()
    ensures Legal(EMITTED, [Take(0, 0), Tick(31), Pass, Beat(0), Take(1, 0), End(0, false, None)], PAIR)
    ensures Run(EMITTED, [Take(0, 0), Tick(31), Pass, Beat(0), Take(1, 0), End(0, false, None)], PAIR) == FAILED_ONCE
  {
    FirstSteps();
    LateTail();
    MiddleSteps();
    LegalCons(STALE, Pass, [Beat(0), Take(1, 0), End(0, false, None)], PAIR);
    LegalCons(TAKEN, Tick(31), [Pass, Beat(0), Take(1, 0), End(0, false, None)], PAIR);
    LegalCons(EMITTED, Take(0, 0), [Tick(31), Pass, Beat(0), Take(1, 0), End(0, false, None)], PAIR);
  }

  lemma LateEnd()
    ensures Planned(ONE_TASK, PAIR)
    ensures PassOver(FAILED_ONCE, PAIR).fed && Settled(PassOver(FAILED_ONCE, PAIR), PAIR.o)
    ensures Drained(PassOver(FAILED_ONCE, PAIR), PAIR) && Retryable(FAILED_ONCE.table, "a", PAIR.o)
  {
    assert Elements(PAIR.ids) == {"a"};
    FirstSteps();
  }

  lemma LateRun()
    ensures Legal(ONE_TASK, [Pass, Take(0, 0), Tick(31), Pass, Beat(0), Take(1, 0), End(0, false, None)], PAIR)
    ensures Run(ONE_TASK, [Pass, Take(0, 0), Tick(31), Pass, Beat(0), Take(1, 0), End(0, false, None)], PAIR)
      == FAILED_ONCE
  {
    FirstPassOfPair();
    LateMiddle();
    LegalCons(ONE_TASK, Pass, [Take(0, 0), Tick(31), Pass, Beat(0), Take(1, 0), End(0, false, None)], PAIR);
  }

  lemma LateActsOwn()
    ensures OwnActs([Pass, Take(0, 0), Tick(31), Pass, Beat(0), Take(1, 0), End(0, false, None)])
  {}

  /** Without fresh heartbeats it is not so: a row emitted while its holder is late,
      and passed over because the holder beat again, fails with the feeder's dedup
      already past it. The last pass then finds nobody at work and an empty queue,
      and the row has attempts left. */
  lemma LateHeartbeatLosesRetry()
    ensures Planned(ONE_TASK, PAIR)
    ensures var acts := [Pass, Take(0, 0), Tick(31), Pass, Beat(0), Take(1, 0), End(0, false, None)];
            Legal(ONE_TASK, acts, PAIR) && OwnActs(acts) && Run(ONE_TASK, acts, PAIR) == FAILED_ONCE
    ensures PassOver(FAILED_ONCE, PAIR).fed && Settled(PassOver(FAILED_ONCE, PAIR), PAIR.o)
    ensures Drained(PassOver(FAILED_ONCE, PAIR), PAIR) && Retryable(FAILED_ONCE.table, "a", PAIR.o)
  {
    LateActsOwn();
    LateRun();
    LateEnd();
  }

  lemma FirstPassOfPair()
    ensures Next(ONE_TASK, Pass, PAIR) == EMITTED
  {
    FirstSteps();
  }
}
