/** Every run of workers, feeders, crashes and clocks over one task table. */
module TaskRuns {
  import opened Types
  import opened ChangeLog
  import opened Order
  import opened Tasks

  type Worker = nat

  /** A worker between its claim and its terminal write; beat is its last heartbeat. */
  datatype Hold = Hold(id: Id, beat: int)

  /** last names the worker that claimed a row most recently. The queue holds what
      the feeder emitted and no worker took yet; fed says the feeder has returned. */
  datatype State = State(table: Table, now: int, holders: map<Worker, Hold>, last: map<Id, Worker>,
                         queue: seq<Id>, seen: Seen, emitted: seq<Item>, fed: bool)

  /** The workers of the process that drains; all other workers belong to others. */
  datatype Env = Env(own: set<Worker>, o: Options, ids: seq<Id>, filter: (Id, TaskRow) -> bool)

  datatype Act =
    | Tick(d: nat)
    | Pass
    | Take(w: Worker, i: nat)
    | OtherClaim(w: Worker, id: Id)
    | Beat(w: Worker)
    | End(w: Worker, ok: bool, result: Option<string>)
    | Crash(w: Worker)

  function IdsOf(batch: seq<Item>): seq<Id> {
    seq(|batch|, i requires 0 <= i < |batch| => batch[i].id)
  }

  function TryClaim(s: State, w: Worker, id: Id, o: Options): State {
    if Claimable(s.table, id, s.now, o) then
      s.(table := ClaimIn(s.table, id, s.now, o), holders := s.holders[w := Hold(id, s.now)], last := s.last[id := w])
    else s
  }

  function PassOver(s: State, env: Env): State {
    var (batch, seen') := Fetch(env.ids, s.table, s.now, env.o, env.filter, s.seen);
    s.(queue := s.queue + IdsOf(batch), seen := seen', emitted := s.emitted + batch, fed := batch == [])
  }

  ghost predicate Allowed(s: State, a: Act, env: Env) {
    match a
    case Tick(_) => true
    case Pass => !s.fed
    case Take(w, i) => w in env.own && w !in s.holders && i < |s.queue|
    case OtherClaim(w, _) => w !in env.own && w !in s.holders
    case Beat(w) => w in s.holders
    case End(w, _, _) => w in s.holders
    case Crash(w) => w !in env.own && w in s.holders
  }

  function Next(s: State, a: Act, env: Env): State
    requires Allowed(s, a, env)
  {
    match a
    case Tick(d) => s.(now := s.now + d)
    case Pass => PassOver(s, env)
    case Take(w, i) => TryClaim(s.(queue := s.queue[..i] + s.queue[i + 1..]), w, s.queue[i], env.o)
    case OtherClaim(w, id) => TryClaim(s, w, id, env.o)
    case Beat(w) =>
      var id := s.holders[w].id;
      s.(table := BeatIn(s.table, id, s.now), holders := s.holders[w := Hold(id, s.now)])
    case End(w, ok, result) =>
      s.(table := EndIn(s.table, s.holders[w].id, ok, result, s.now), holders := s.holders - {w})
    case Crash(w) => s.(holders := s.holders - {w})
  }

  ghost predicate Legal(s: State, acts: seq<Act>, env: Env)
    decreases |acts|
  {
    acts != [] ==> Allowed(s, acts[0], env) && Legal(Next(s, acts[0], env), acts[1..], env)
  }

  function Run(s: State, acts: seq<Act>, env: Env): State
    requires Legal(s, acts, env)
    decreases |acts|
  {
    if acts == [] then s else Run(Next(s, acts[0], env), acts[1..], env)
  }

  /** No live holder's heartbeat is older than Stale. */
  ghost predicate Fresh(s: State, env: Env) {
    forall w :: w in s.holders ==> s.holders[w].beat >= s.now - env.o.stale
  }

  ghost predicate AlwaysFresh(s: State, acts: seq<Act>, env: Env)
    requires Legal(s, acts, env)
    decreases |acts|
  {
    Fresh(s, env) && (acts != [] ==> AlwaysFresh(Next(s, acts[0], env), acts[1..], env))
  }

  /** A process opens the table, as planned or as earlier runs left it. */
  ghost predicate Start(s: State, env: Env) {
    && s.holders == map[] && s.last == map[] && s.queue == [] && s.seen == map[] && s.emitted == [] && !s.fed
    && Lists(env.ids, s.table.Keys) && env.o.maxAttempts > 0
    && forall id :: id in s.table && s.table[id].status.Pending? ==> s.table[id].attempts == 0
  }

  // ---- One holder per row -----------------------------------------------------------

  ghost predicate Holds(s: State, w: Worker) {
    w in s.holders ==>
      var h := s.holders[w];
      h.id in s.table && s.table[h.id].status.Running? && s.table[h.id].heartbeat == Some(h.beat)
  }

  ghost predicate Apart(s: State, v: Worker, w: Worker) {
    v in s.holders && w in s.holders && v != w ==> s.holders[v].id != s.holders[w].id
  }

  /** Every holder's row is running on that holder's heartbeat, and no two holders
      share a row. */
  ghost predicate Owned(s: State) {
    (forall w :: Holds(s, w)) && forall v, w :: Apart(s, v, w)
  }

  /** In step: a held row can be claimed exactly when its holder went stale. */
  lemma HeldClaimable(s: State, env: Env, w: Worker)
    requires Owned(s) && w in s.holders
    ensures Claimable(s.table, s.holders[w].id, s.now, env.o) <==> s.holders[w].beat < s.now - env.o.stale
  {
    assert Holds(s, w);
  }

  lemma ClaimOwned(s: State, env: Env, w: Worker, id: Id)
    requires Owned(s) && Fresh(s, env) && w !in s.holders
    ensures Owned(TryClaim(s, w, id, env.o))
  {
    var s' := TryClaim(s, w, id, env.o);
    if s' != s {
      forall v | v in s.holders ensures s.holders[v].id != id {
        HeldClaimable(s, env, v);
      }
      forall v ensures Holds(s', v) {
        assert Holds(s, v);
      }
      forall u, v ensures Apart(s', u, v) {
        assert Apart(s, u, v);
      }
    }
  }

  lemma BeatOwned(s: State, env: Env, w: Worker)
    requires Owned(s) && w in s.holders
    ensures Owned(Next(s, Beat(w), env))
  {
    var s' := Next(s, Beat(w), env);
    assert Holds(s, w);
    forall v ensures Holds(s', v) {
      assert Holds(s, v) && Apart(s, v, w);
    }
    forall u, v ensures Apart(s', u, v) {
      assert Apart(s, u, v);
    }
  }

  lemma EndOwned(s: State, env: Env, w: Worker, ok: bool, result: Option<string>)
    requires Owned(s) && w in s.holders
    ensures Owned(Next(s, End(w, ok, result), env))
  {
    var s' := Next(s, End(w, ok, result), env);
    assert Holds(s, w);
    forall v ensures Holds(s', v) {
      assert Holds(s, v) && Apart(s, v, w);
    }
    forall u, v ensures Apart(s', u, v) {
      assert Apart(s, u, v);
    }
  }

  /** Acts that change neither the table nor who holds what, except to drop holders. */
  lemma SameOwned(s: State, s': State)
    requires Owned(s) && s'.table == s.table && s'.holders.Keys <= s.holders.Keys
    requires forall w :: w in s'.holders ==> s'.holders[w] == s.holders[w]
    ensures Owned(s')
  {
    forall v ensures Holds(s', v) {
      assert Holds(s, v);
    }
    forall u, v ensures Apart(s', u, v) {
      assert Apart(s, u, v);
    }
  }

  lemma NextOwned(s: State, a: Act, env: Env)
    requires Owned(s) && Fresh(s, env) && Allowed(s, a, env)
    ensures Owned(Next(s, a, env))
  {
    match a
    case Tick(_) => SameOwned(s, Next(s, a, env));
    case Pass => SameOwned(s, Next(s, a, env));
    case Take(w, i) =>
      var s1 := s.(queue := s.queue[..i] + s.queue[i + 1..]);
      SameOwned(s, s1);
      ClaimOwned(s1, env, w, s.queue[i]);
    case OtherClaim(w, id) => ClaimOwned(s, env, w, id);
    case Beat(w) => BeatOwned(s, env, w);
    case End(w, ok, result) => EndOwned(s, env, w, ok, result);
    case Crash(_) => SameOwned(s, Next(s, a, env));
  }

  /** While live heartbeats stay fresher than Stale, no row ever has two live
      holders, over all workers of all processes, whatever crashes. */
  lemma {:induction false} SingleHolder(s: State, acts: seq<Act>, env: Env)
    requires Owned(s) && Legal(s, acts, env) && AlwaysFresh(s, acts, env)
    ensures Owned(Run(s, acts, env))
    decreases |acts|
  {
    if acts != [] {
      NextOwned(s, acts[0], env);
      SingleHolder(Next(s, acts[0], env), acts[1..], env);
    }
  }

  /** From a start with no live holder, in whatever state earlier runs left the rows. */
  lemma OneHolderPerRow(s: State, acts: seq<Act>, env: Env, v: Worker, w: Worker)
    requires Start(s, env) && Legal(s, acts, env) && AlwaysFresh(s, acts, env)
    ensures var s' := Run(s, acts, env);
            && Owned(s')
            && (v in s'.holders && w in s'.holders && s'.holders[v].id == s'.holders[w].id ==> v == w)
  {
    SingleHolder(s, acts, env);
    assert Apart(Run(s, acts, env), v, w);
  }

  lemma NextDone(s: State, a: Act, env: Env, id: Id)
    requires Owned(s) && Allowed(s, a, env) && id in s.table && s.table[id].status.Done?
    ensures var s' := Next(s, a, env); id in s'.table && s'.table[id] == s.table[id]
  {
    if a.Beat? || a.End? {
      assert Holds(s, a.w);
    }
  }

  /** A done row is never claimed, beaten or overwritten again. */
  lemma {:induction false} DoneStays(s: State, acts: seq<Act>, env: Env, id: Id)
    requires Owned(s) && Legal(s, acts, env) && AlwaysFresh(s, acts, env)
    requires id in s.table && s.table[id].status.Done?
    ensures var s' := Run(s, acts, env); id in s'.table && s'.table[id] == s.table[id]
    decreases |acts|
  {
    if acts != [] {
      NextOwned(s, acts[0], env);
      NextDone(s, acts[0], env, id);
      DoneStays(Next(s, acts[0], env), acts[1..], env, id);
    }
  }

  /** Without fresh heartbeats neither holds: any idle worker of another process
      can claim a stale holder's row, both then hold it, and the stale one's
      failure overwrites the other's done. */
  lemma StaleHolderOverwrites(s: State, env: Env, w: Worker, v: Worker, result: Option<string>)
    requires Owned(s) && w in s.holders && s.holders[w].beat < s.now - env.o.stale
    requires v !in env.own && v !in s.holders
    ensures var id, acts := s.holders[w].id,
      [OtherClaim(v, s.holders[w].id), End(v, true, result), End(w, false, None)];
            && Legal(s, acts, env)
            && !Apart(Next(s, acts[0], env), v, w)
            && HasStatus(Run(s, acts[..2], env).table, id, Done)
            && HasStatus(Run(s, acts, env).table, id, Failed)
  {
    HeldClaimable(s, env, w);
    var id := s.holders[w].id;
    var a, b, c := OtherClaim(v, id), End(v, true, result), End(w, false, None);
    var s1 := Next(s, a, env);
    var s2 := Next(s1, b, env);
    var s3 := Next(s2, c, env);
    assert Legal(s3, [], env) && Legal(s2, [], env);
    LegalCons(s2, c, [], env);
    LegalCons(s1, b, [c], env);
    LegalCons(s1, b, [], env);
    LegalCons(s, a, [b, c], env);
    LegalCons(s, a, [b], env);
    assert [c] + [] == [c] && [b] + [c] == [b, c] && [b] + [] == [b] && [a] + [b, c] == [a, b, c]
      && [a] + [b] == [a, b];
    assert [a, b, c][..2] == [a, b];
  }

  predicate HasStatus(t: Table, id: Id, status: Status) {
    id in t && t[id].status == status
  }

  lemma LegalCons(s: State, a: Act, rest: seq<Act>, env: Env)
    requires Allowed(s, a, env) && Legal(Next(s, a, env), rest, env)
    ensures Legal(s, [a] + rest, env)
    ensures Run(s, [a] + rest, env) == Run(Next(s, a, env), rest, env)
  {
    assert ([a] + rest)[1..] == rest;
  }

  // ---- Attempts ------------------------------------------------------------------------

  /** The act takes a running row away from its holder. */
  predicate Reclaims(s: State, a: Act, env: Env, id: Id) {
    match a
    case Take(_, i) => i < |s.queue| && s.queue[i] == id && Claimable(s.table, id, s.now, env.o)
      && s.table[id].status.Running?
    case OtherClaim(_, x) => x == id && Claimable(s.table, id, s.now, env.o) && s.table[id].status.Running?
    case _ => false
  }

  function ReclaimsOf(s: State, acts: seq<Act>, env: Env, id: Id): nat
    requires Legal(s, acts, env)
    decreases |acts|
  {
    if acts == [] then 0
    else (if Reclaims(s, acts[0], env, id) then 1 else 0) + ReclaimsOf(Next(s, acts[0], env), acts[1..], env, id)
  }

  /** The act claims the row. */
  predicate Claims(s: State, a: Act, env: Env, id: Id) {
    match a
    case Take(_, i) => i < |s.queue| && s.queue[i] == id && Claimable(s.table, id, s.now, env.o)
    case OtherClaim(_, x) => x == id && Claimable(s.table, id, s.now, env.o)
    case _ => false
  }

  function ClaimsOf(s: State, acts: seq<Act>, env: Env, id: Id): nat
    requires Legal(s, acts, env)
    decreases |acts|
  {
    if acts == [] then 0
    else (if Claims(s, acts[0], env, id) then 1 else 0) + ClaimsOf(Next(s, acts[0], env), acts[1..], env, id)
  }

  lemma NextCounts(s: State, a: Act, env: Env, id: Id)
    requires Allowed(s, a, env) && id in s.table
    ensures var s' := Next(s, a, env);
            && id in s'.table
            && s'.table[id].attempts == s.table[id].attempts + (if Claims(s, a, env, id) then 1 else 0)
  {}

  /** attempts counts the claims of the row, first ones, retries and stale reclaims
      alike, over every run. */
  lemma {:induction false} AttemptsCountClaims(s: State, acts: seq<Act>, env: Env, id: Id)
    requires Legal(s, acts, env) && id in s.table
    ensures var s' := Run(s, acts, env);
            && id in s'.table && s'.table[id].attempts == s.table[id].attempts + ClaimsOf(s, acts, env, id)
            && ClaimsOf(s, acts, env, id) >= ReclaimsOf(s, acts, env, id)
    decreases |acts|
  {
    if acts != [] {
      NextCounts(s, acts[0], env, id);
      AttemptsCountClaims(Next(s, acts[0], env), acts[1..], env, id);
    }
  }

  /** The result the act reports for the row, if it does. */
  function Reports(s: State, a: Act, id: Id): Option<string> {
    if a.End? && a.w in s.holders && s.holders[a.w].id == id && a.ok then a.result else None
  }

  /** The last result reported for the row, or what it had. */
  function LastResult(s: State, acts: seq<Act>, env: Env, id: Id, had: Option<string>): Option<string>
    requires Legal(s, acts, env)
    decreases |acts|
  {
    if acts == [] then had
    else
      var r := Reports(s, acts[0], id);
      LastResult(Next(s, acts[0], env), acts[1..], env, id, if r.Some? then r else had)
  }

  lemma NextResult(s: State, a: Act, env: Env, id: Id)
    requires Allowed(s, a, env) && id in s.table
    ensures id in Next(s, a, env).table
    ensures Next(s, a, env).table[id].result ==
            if Reports(s, a, id).Some? then Reports(s, a, id) else s.table[id].result
  {}

  /** A row has the last result a worker reported for it with a success; claims,
      beats, failures and successes without a result leave it. */
  lemma {:induction false} ResultIsLastReported(s: State, acts: seq<Act>, env: Env, id: Id)
    requires Legal(s, acts, env) && id in s.table
    ensures var s' := Run(s, acts, env);
            id in s'.table && s'.table[id].result == LastResult(s, acts, env, id, s.table[id].result)
    decreases |acts|
  {
    if acts != [] {
      NextResult(s, acts[0], env, id);
      ResultIsLastReported(Next(s, acts[0], env), acts[1..], env, id);
    }
  }

  /** Pending rows were never attempted. */
  ghost predicate Unattempted(t: Table) {
    forall id :: id in t && t[id].status.Pending? ==> t[id].attempts == 0
  }

  lemma NextUnattempted(s: State, a: Act, env: Env)
    requires Allowed(s, a, env) && Unattempted(s.table)
    ensures var s' := Next(s, a, env); s'.table.Keys == s.table.Keys && Unattempted(s'.table)
  {}

  lemma NextAttempts(s: State, a: Act, env: Env, id: Id, b: nat)
    requires Allowed(s, a, env) && Unattempted(s.table) && 0 < env.o.maxAttempts <= b
    requires id in s.table && s.table[id].attempts <= b
    ensures var s' := Next(s, a, env);
            && s'.table.Keys == s.table.Keys && Unattempted(s'.table)
            && s.table[id].attempts <= s'.table[id].attempts <= b + (if Reclaims(s, a, env, id) then 1 else 0)
  {
    NextUnattempted(s, a, env);
  }

  /** attempts never exceeds the limit, or what it was at the start, by more than
      the number of stale reclaims of the row, and grows by at least that number. */
  lemma {:induction false} AttemptsBounded(s: State, acts: seq<Act>, env: Env, id: Id, b: nat)
    requires Legal(s, acts, env) && Unattempted(s.table) && 0 < env.o.maxAttempts <= b
    requires id in s.table && s.table[id].attempts <= b
    ensures var s' := Run(s, acts, env);
            && s'.table.Keys == s.table.Keys
            && s.table[id].attempts + ReclaimsOf(s, acts, env, id) <= s'.table[id].attempts
            && s'.table[id].attempts <= b + ReclaimsOf(s, acts, env, id)
    decreases |acts|
  {
    if acts != [] {
      NextCounts(s, acts[0], env, id);
      var s1 := Next(s, acts[0], env);
      NextAttempts(s, acts[0], env, id, b);
      AttemptsBounded(s1, acts[1..], env, id, b + (if Reclaims(s, acts[0], env, id) then 1 else 0));
    }
  }

  // ---- Emissions --------------------------------------------------------------------------

  /** Some running row is taken away from its holder. */
  ghost predicate AnyReclaim(s: State, a: Act, env: Env) {
    exists id :: Reclaims(s, a, env, id)
  }

  ghost function AllReclaims(s: State, acts: seq<Act>, env: Env): nat
    requires Legal(s, acts, env)
    decreases |acts|
  {
    if acts == [] then 0
    else (if AnyReclaim(s, acts[0], env) then 1 else 0) + AllReclaims(Next(s, acts[0], env), acts[1..], env)
  }

  function PassesIn(acts: seq<Act>): nat
    decreases |acts|
  {
    if acts == [] then 0 else (if acts[0].Pass? then 1 else 0) + PassesIn(acts[1..])
  }

  lemma NextAllAttempts(s: State, a: Act, env: Env, b: nat)
    requires Allowed(s, a, env) && Unattempted(s.table) && 0 < env.o.maxAttempts <= b && AttemptsWithin(s.table, b)
    ensures var s' := Next(s, a, env);
            && s'.table.Keys == s.table.Keys && Unattempted(s'.table)
            && AttemptsWithin(s'.table, b + (if AnyReclaim(s, a, env) then 1 else 0))
  {
    var s' := Next(s, a, env);
    if s.table.Keys == {} {
      assert s.table == map[];
    }
    forall id | id in s.table
      ensures s'.table.Keys == s.table.Keys && Unattempted(s'.table)
      ensures s'.table[id].attempts <= b + (if AnyReclaim(s, a, env) then 1 else 0)
    {
      NextAttempts(s, a, env, id, b);
    }
  }

  ghost predicate Feeding(s: State, env: Env, cap: nat) {
    Trail(s.emitted, env.ids, s.seen) && SeenWithin(s.seen, cap)
  }

  lemma NextFeeding(s: State, a: Act, env: Env, cap: nat)
    requires Allowed(s, a, env) && Feeding(s, env, cap) && AttemptsWithin(s.table, cap)
    ensures var s' := Next(s, a, env);
            && Feeding(s', env, cap) && s.emitted <= s'.emitted
            && (s.fed ==> s'.fed)
            && (a.Pass? ==> !s.fed && (s'.fed || |s'.emitted| > |s.emitted|))
  {
    if a.Pass? {
      FetchTrail(s.emitted, env.ids, env.ids, s.table, s.now, env.o, env.filter, s.seen);
      FetchWithin(env.ids, s.table, s.now, env.o, env.filter, s.seen, cap);
    }
  }

  function Flag(b: bool): nat {
    if b then 1 else 0
  }

  /** The feeder never emits a row twice with the same attempts, and if the rows
      start with at most b attempts (and the limit is at most b), it makes at most
      |ids| * (b + reclaims + 1) emissions and one pass more: it stops when stale
      reclaims do. */
  lemma {:induction false} FeederBounded(s: State, acts: seq<Act>, env: Env, b: nat, cap: nat)
    requires Legal(s, acts, env) && Unattempted(s.table) && 0 < env.o.maxAttempts <= b && AttemptsWithin(s.table, b)
    requires Feeding(s, env, cap) && b + AllReclaims(s, acts, env) <= cap
    ensures var s' := Run(s, acts, env);
            && Trail(s'.emitted, env.ids, s'.seen)
            && |s'.emitted| <= |env.ids| * (cap + 1)
            && PassesIn(acts) + |s.emitted| + Flag(s.fed) <= |s'.emitted| + Flag(s'.fed)
    decreases |acts|
  {
    if acts == [] {
      SpentWithin(env.ids, s.seen, cap);
    } else {
      var s1 := Next(s, acts[0], env);
      NextAllAttempts(s, acts[0], env, b);
      NextFeeding(s, acts[0], env, cap);
      FeederBounded(s1, acts[1..], env, b + (if AnyReclaim(s, acts[0], env) then 1 else 0), cap);
    }
  }

  lemma {:induction false} FeederStops(s: State, acts: seq<Act>, env: Env, b: nat)
    requires Start(s, env) && Legal(s, acts, env) && env.o.maxAttempts <= b && AttemptsWithin(s.table, b)
    ensures var s', bound := Run(s, acts, env), |env.ids| * (b + AllReclaims(s, acts, env) + 1);
            && (forall i, j :: 0 <= i < j < |s'.emitted| ==> s'.emitted[i] != s'.emitted[j])
            && |s'.emitted| <= bound && PassesIn(acts) <= bound + 1
  {
    FeederBounded(s, acts, env, b, b + AllReclaims(s, acts, env));
  }

  // ---- What a drain leaves behind ------------------------------------------------------------

  ghost predicate NoFilter(env: Env) {
    forall id, row :: env.filter(id, row)
  }

  /** No pending row escapes: once seen it waits in the queue, and once the feeder
      is done all of them were seen. */
  ghost predicate Caught(s: State, id: Id) {
    HasStatus(s.table, id, Pending) ==> (id in s.seen ==> id in s.queue) && (s.fed ==> id in s.seen)
  }

  /** A running row that this process claimed last is in that worker's hands. */
  ghost predicate InHand(s: State, env: Env, id: Id) {
    HasStatus(s.table, id, Running) && id in s.last && s.last[id] in env.own ==>
      s.last[id] in s.holders && s.holders[s.last[id]].id == id
  }

  ghost predicate Draining(s: State, env: Env) {
    && Unattempted(s.table) && s.table.Keys == Elements(env.ids)
    && forall id :: Caught(s, id) && InHand(s, env, id)
  }

  lemma PassDrains(s: State, env: Env)
    requires Draining(s, env) && NoFilter(env)
    ensures Draining(PassOver(s, env), env)
  {
    var s' := PassOver(s, env);
    var batch := Fetch(env.ids, s.table, s.now, env.o, env.filter, s.seen).0;
    FetchSees(env.ids, s.table, s.now, env.o, env.filter, s.seen);
    forall id ensures Caught(s', id) && InHand(s', env, id) {
      assert Caught(s, id) && InHand(s, env, id);
      if HasStatus(s.table, id, Pending) {
        ElementsHas(env.ids, id);
        assert InQueue(s.table, id, s.now, env.o, env.filter);
        if id in s'.seen && id !in s.seen {
          var i :| 0 <= i < |batch| && batch[i].id == id;
          assert IdsOf(batch)[i] == id;
        }
      }
    }
  }

  lemma StaysQueued(queue: seq<Id>, i: nat, id: Id)
    requires i < |queue| && id in queue && id != queue[i]
    ensures id in queue[..i] + queue[i + 1..]
  {
    var k :| 0 <= k < |queue| && queue[k] == id;
    var rest := queue[..i] + queue[i + 1..];
    assert if k < i then rest[k] == id else rest[k - 1] == id;
  }

  /** What taking an item does to a row: nothing, or a claim. */
  lemma TakeAt(s: State, env: Env, w: Worker, i: nat, id: Id)
    requires Allowed(s, Take(w, i), env) && Caught(s, id) && InHand(s, env, id)
    ensures var s' := Next(s, Take(w, i), env); Caught(s', id) && InHand(s', env, id)
  {
    if id in s.queue && id != s.queue[i] {
      StaysQueued(s.queue, i, id);
    }
  }

  lemma TakeDrains(s: State, env: Env, w: Worker, i: nat)
    requires Draining(s, env) && Allowed(s, Take(w, i), env)
    ensures Draining(Next(s, Take(w, i), env), env)
  {
    var s' := Next(s, Take(w, i), env);
    forall id ensures Caught(s', id) && InHand(s', env, id) {
      assert Caught(s, id) && InHand(s, env, id);
      TakeAt(s, env, w, i, id);
    }
  }

  lemma OtherDrains(s: State, a: Act, env: Env)
    requires Draining(s, env) && Allowed(s, a, env) && !a.Pass? && !a.Take?
    ensures Draining(Next(s, a, env), env)
  {
    var s' := Next(s, a, env);
    forall id ensures Caught(s', id) && InHand(s', env, id) {
      assert Caught(s, id) && InHand(s, env, id);
    }
  }

  lemma NextDrains(s: State, a: Act, env: Env)
    requires Draining(s, env) && NoFilter(env) && Allowed(s, a, env)
    ensures Draining(Next(s, a, env), env)
  {
    match a
    case Pass => PassDrains(s, env);
    case Take(w, i) => TakeDrains(s, env, w, i);
    case _ => OtherDrains(s, a, env);
  }

  lemma {:induction false} RunDrains(s: State, acts: seq<Act>, env: Env)
    requires Draining(s, env) && NoFilter(env) && Legal(s, acts, env)
    ensures Draining(Run(s, acts, env), env)
    decreases |acts|
  {
    if acts != [] {
      NextDrains(s, acts[0], env);
      RunDrains(Next(s, acts[0], env), acts[1..], env);
    }
  }

  lemma StartDrains(s: State, env: Env)
    requires Start(s, env)
    ensures Draining(s, env)
  {}

  /** The feeder has returned, the queue is empty and the workers are idle. */
  ghost predicate Drained(s: State, env: Env) {
    s.fed && s.queue == [] && forall w :: w in s.holders ==> w !in env.own
  }

  /** After an error-free drain without a filter no row is pending, and no running
      row is one that this process claimed last, stale reclaims or not. */
  lemma DrainLeaves(s: State, acts: seq<Act>, env: Env, id: Id)
    requires Start(s, env) && NoFilter(env) && Legal(s, acts, env) && Drained(Run(s, acts, env), env)
    ensures var s' := Run(s, acts, env);
            && !HasStatus(s'.table, id, Pending)
            && (HasStatus(s'.table, id, Running) ==> !(id in s'.last && s'.last[id] in env.own))
  {
    StartDrains(s, env);
    RunDrains(s, acts, env);
    assert Caught(Run(s, acts, env), id) && InHand(Run(s, acts, env), env, id);
  }

  // ---- A process on its own -----------------------------------------------------------------------

  /** Only this process works, on rows it planned itself. */
  ghost predicate Alone(s: State, env: Env) {
    && (forall w :: w in s.holders ==> w in env.own)
    && (forall id :: HasStatus(s.table, id, Running) ==> id in s.last && s.last[id] in env.own)
  }

  ghost predicate OwnActs(acts: seq<Act>) {
    forall i :: 0 <= i < |acts| ==> !acts[i].OtherClaim?
  }

  lemma NextAlone(s: State, a: Act, env: Env)
    requires Alone(s, env) && Allowed(s, a, env) && !a.OtherClaim?
    ensures Alone(Next(s, a, env), env)
  {}

  lemma {:induction false} RunAlone(s: State, acts: seq<Act>, env: Env)
    requires Alone(s, env) && Legal(s, acts, env) && OwnActs(acts)
    ensures Alone(Run(s, acts, env), env)
    decreases |acts|
  {
    if acts != [] {
      NextAlone(s, acts[0], env);
      RunAlone(Next(s, acts[0], env), acts[1..], env);
    }
  }

  ghost predicate NothingFailed(t: Table) {
    forall id :: id in t ==> !t[id].status.Failed?
  }

  /** A process that planned the rows itself and drains them alone ends with every
      row done or failed, so the database is archived exactly when none failed. */
  lemma LoneDrainEndsAll(s: State, acts: seq<Act>, env: Env)
    requires Start(s, env) && NoFilter(env) && Legal(s, acts, env) && OwnActs(acts)
    requires forall id :: id in s.table ==> s.table[id].status.Pending?
    requires Drained(Run(s, acts, env), env)
    ensures var t := Run(s, acts, env).table;
            && (forall id :: id in t ==> t[id].status.Done? || t[id].status.Failed?)
            && (AllDone(t) <==> NothingFailed(t))
  {
    RunAlone(s, acts, env);
    var t := Run(s, acts, env).table;
    forall id | id in t ensures t[id].status.Done? || t[id].status.Failed? {
      DrainLeaves(s, acts, env, id);
    }
  }

  // ---- Retries -----------------------------------------------------------------------------------------

  const LONE: Env := Env({0}, Options(3, 30, false), ["a"], (id, row) => true)

  const HELD: TaskRow := TaskRow(Running, 1, Some(0), None)

  const ONE_TASK: State := State(map["a" := SEEDED], 0, map[], map[], [], map[], [], false)
  const EMITTED: State := ONE_TASK.(queue := ["a"], seen := map["a" := 0], emitted := [Item("a", 0)])
  const TAKEN: State := EMITTED.(table := map["a" := HELD], holders := map[0 := Hold("a", 0)], last := map["a" := 0],
                                 queue := [])
  const FED: State := TAKEN.(fed := true)
  const GIVEN_UP: State := FED.(table := map["a" := TaskRow(Failed, 1, Some(0), None)], holders := map[])

  /** A legal run whose states are all fresh. */
  ghost predicate Goes(s: State, acts: seq<Act>, end: State, env: Env) {
    Legal(s, acts, env) && AlwaysFresh(s, acts, env) && Run(s, acts, env) == end
  }

  lemma GoesOn(s: State, a: Act, rest: seq<Act>, end: State, env: Env)
    requires Allowed(s, a, env) && Fresh(s, env) && Goes(Next(s, a, env), rest, end, env)
    ensures Goes(s, [a] + rest, end, env)
  {
    LegalCons(s, a, rest, env);
    assert ([a] + rest)[1..] == rest;
  }

  lemma FirstPass()
    ensures PassOver(ONE_TASK, LONE) == EMITTED
  {
    assert Front(LONE.ids) == [] && Last(LONE.ids) == "a";
    assert Fetch([], ONE_TASK.table, 0, LONE.o, LONE.filter, map[]) == ([], map[]);
    assert InQueue(ONE_TASK.table, "a", 0, LONE.o, LONE.filter);
    assert IdsOf([Item("a", 0)]) == ["a"];
  }

  lemma LastPass()
    ensures PassOver(TAKEN, LONE) == FED
  {
    assert Front(LONE.ids) == [] && Last(LONE.ids) == "a";
    assert Fetch([], TAKEN.table, 0, LONE.o, LONE.filter, TAKEN.seen) == ([], TAKEN.seen);
    assert !InQueue(TAKEN.table, "a", 0, LONE.o, LONE.filter);
    assert [] + IdsOf([]) == [];
  }

  lemma OnlyAttempt()
    ensures Allowed(EMITTED, Take(0, 0), LONE) && Next(EMITTED, Take(0, 0), LONE) == TAKEN
    ensures Allowed(FED, End(0, false, None), LONE) && Next(FED, End(0, false, None), LONE) == GIVEN_UP
  {
    assert EMITTED.queue[..0] + EMITTED.queue[1..] == [];
    assert FED.holders - {0} == map[];
  }

  lemma RetryTail()
    ensures Goes(TAKEN, [Pass, End(0, false, None)], GIVEN_UP, LONE)
  {
    LastPass();
    OnlyAttempt();
    GoesOn(FED, End(0, false, None), [], GIVEN_UP, LONE);
    GoesOn(TAKEN, Pass, [End(0, false, None)], GIVEN_UP, LONE);
  }

  lemma RetryRun()
    ensures Goes(ONE_TASK, [Pass, Take(0, 0), Pass, End(0, false, None)], GIVEN_UP, LONE)
  {
    FirstPass();
    OnlyAttempt();
    RetryTail();
    GoesOn(EMITTED, Take(0, 0), [Pass, End(0, false, None)], GIVEN_UP, LONE);
    GoesOn(ONE_TASK, Pass, [Take(0, 0), Pass, End(0, false, None)], GIVEN_UP, LONE);
  }

  /** A retry within one drain is not guaranteed: if the feeder's last pass comes
      while the only attempt is still running, the drain ends with a failed row
      that has attempts left. */
  lemma RetryNotGuaranteed()
    ensures Start(ONE_TASK, LONE) && Goes(ONE_TASK, [Pass, Take(0, 0), Pass, End(0, false, None)], GIVEN_UP, LONE)
    ensures Drained(GIVEN_UP, LONE) && NoFilter(LONE)
    ensures HasStatus(GIVEN_UP.table, "a", Failed) && GIVEN_UP.table["a"].attempts < LONE.o.maxAttempts
  {
    assert Elements(LONE.ids) == {"a"};
    RetryRun();
  }
}
