/** The hub appends and broadcasts in two separate calls, so nothing makes
    broadcasts follow version order. Here any committed record may be announced
    next, and in-order announcement is shown to be exactly what delivery needs. */
module AnyOrder {
  import opened Types
  import opened ChangeLog
  import opened HubStore
  import opened Sync
  import R = Replication
  import C = Convergence

  /** order lists the versions announced so far, each once. */
  datatype State = State(db: Db, order: seq<nat>, clients: map<nat, R.Client>)

  datatype Action = Commit(op: StoreOp) | Announce(version: nat) | ByClient(id: nat, act: R.ClientAction)

  predicate Announceable(s: State, v: nat) {
    0 < v <= |s.db.log| && v !in s.order
  }

  function Next(s: State, a: Action): State {
    match a
    case Commit(op) => s.(db := StoreStep(s.db, op))
    case Announce(v) =>
      if Announceable(s, v) then State(s.db, s.order + [v], R.OfferAll(s.clients, s.db.log[v - 1])) else s
    case ByClient(id, act) =>
      if id in s.clients then s.(clients := s.clients[id := R.ClientNext(s.db, |s.order|, s.clients[id], act)]) else s
  }

  function Run(s: State, acts: seq<Action>): State
    decreases |acts|
  {
    if acts == [] then s else Run(Next(s, acts[0]), acts[1..])
  }

  function Init(ids: set<nat>): State {
    State(EMPTY, [], map c | c in ids :: R.NEW_CLIENT)
  }

  /** Announced in version order, none skipped. */
  ghost predicate InOrder(order: seq<nat>) {
    forall i :: 0 <= i < |order| ==> order[i] == i + 1
  }

  // ---- In-order runs are the runs of the replication machine ---------------------------

  function Forget(s: State): R.State {
    R.State(s.db, |s.order|, s.clients)
  }

  function Translate(s: State, acts: seq<Action>): seq<R.Action>
    decreases |acts|
  {
    if acts == [] then []
    else
      (match acts[0]
       case Commit(op) => [R.Commit(op)]
       case Announce(v) => if Announceable(s, v) then [R.Broadcast] else []
       case ByClient(id, act) => [R.ByClient(id, act)]) + Translate(Next(s, acts[0]), acts[1..])
  }

  lemma {:induction false} OrderGrows(s: State, acts: seq<Action>)
    ensures s.order <= Run(s, acts).order
    decreases |acts|
  {
    if acts != [] {
      OrderGrows(Next(s, acts[0]), acts[1..]);
    }
  }

  lemma RunCons(s: R.State, a: R.Action, rest: seq<R.Action>)
    ensures R.Run(s, [a] + rest) == R.Run(R.Next(s, a), rest)
  {
    assert ([a] + rest)[1..] == rest;
  }

  lemma TranslateStep(s: State, a: Action)
    requires InOrder(Next(s, a).order)
    ensures match a
            case Commit(op) => Forget(Next(s, a)) == R.Next(Forget(s), R.Commit(op))
            case Announce(v) => Forget(Next(s, a)) == if Announceable(s, v) then R.Next(Forget(s), R.Broadcast)
              else Forget(s)
            case ByClient(id, act) => Forget(Next(s, a)) == R.Next(Forget(s), R.ByClient(id, act))
  {
    if a.Announce? && Announceable(s, a.version) {
      assert Next(s, a).order[|s.order|] == |s.order| + 1;
    }
  }

  lemma {:induction false} InOrderRun(s: State, acts: seq<Action>)
    requires InOrder(Run(s, acts).order)
    ensures Forget(Run(s, acts)) == R.Run(Forget(s), Translate(s, acts))
    decreases |acts|
  {
    if acts != [] {
      var s' := Next(s, acts[0]);
      OrderGrows(s', acts[1..]);
      InOrderRun(s', acts[1..]);
      TranslateStep(s, acts[0]);
      var rest := Translate(s', acts[1..]);
      match acts[0] {
        case Commit(op) => RunCons(Forget(s), R.Commit(op), rest);
        case Announce(v) =>
          if Announceable(s, v) {
            RunCons(Forget(s), R.Broadcast, rest);
          } else {
            assert [] + rest == rest;
          }
        case ByClient(id, act) => RunCons(Forget(s), R.ByClient(id, act), rest);
      }
    }
  }

  lemma ForgetInit(ids: set<nat>)
    ensures Forget(Init(ids)) == R.Init(ids)
  {}

  /** Every run whose announcements come in order delivers exactly, connection by
      connection, and its clients converge. */
  lemma {:induction false} InOrderDelivers(ids: set<nat>, acts: seq<Action>, c: nat)
    requires var s := Run(Init(ids), acts); InOrder(s.order) && c in s.clients
    ensures var s := Run(Init(ids), acts);
            var log, k := s.db.log, s.clients[c];
            && (k.conn.Some? ==> C.Delivers(log, k.conn.value))
            && k.hubVersion <= |log|
            && (k.overflowed == {} && k.base <= k.hubVersion ==> R.Metas(k.tree) == R.Metas(Fold(log[..k.hubVersion])))
  {
    ForgetInit(ids);
    InOrderRun(Init(ids), acts);
    var acts' := Translate(Init(ids), acts);
    C.ReplicaTree(ids, acts', c);
    if Run(Init(ids), acts).clients[c].conn.Some? {
      C.DeliveredExactly(ids, acts', c);
    }
    if Run(Init(ids), acts).clients[c].overflowed == {}
      && Run(Init(ids), acts).clients[c].base <= Run(Init(ids), acts).clients[c].hubVersion {
      C.Converges(ids, acts', c);
    }
  }

  // ---- And no other order will do ----------------------------------------------------------

  /** What the hub does in a run. */
  function HubPart(acts: seq<Action>): seq<Action>
    decreases |acts|
  {
    if acts == [] then [] else (if acts[0].ByClient? then [] else [acts[0]]) + HubPart(acts[1..])
  }

  ghost predicate HubOnly(acts: seq<Action>) {
    forall a :: a in acts ==> !a.ByClient?
  }

  /** Client 0 is live and has read everything it was sent. */
  ghost predicate Eager(s: State) {
    && Consistent(s.db) && s.clients.Keys == {0}
    && (forall v :: v in s.order ==> 0 < v <= |s.db.log|)
    && var k := s.clients[0];
       && k.conn.Some? && k.conn.value.phase.Live? && k.conn.value.queue == [] && k.conn.value.wire == []
       && k.conn.value.lastVersion == 0 && k.overflowed == {}
       && k.hubVersion == (if s.order == [] then 0 else Last(s.order))
       && (k.lost == {} <==> InOrder(s.order))
  }

  lemma InOrderHas(order: seq<nat>, v: nat)
    requires InOrder(order) && v > 0
    ensures v <= |order| ==> v in order
  {
    if v <= |order| {
      assert order[v - 1] == v;
    }
  }

  /** The next announcement keeps the order exactly if the client skips nothing. */
  lemma NextInOrder(order: seq<nat>, v: nat)
    requires v !in order && v > 0
    ensures InOrder(order + [v]) <==>
      InOrder(order) && R.Between(if order == [] then 0 else Last(order), v) == {}
  {
    var last := if order == [] then 0 else Last(order);
    if InOrder(order) {
      assert last == |order|;
      InOrderHas(order, v);
      if v > |order| + 1 {
        assert |order| + 1 in R.Between(last, v);
      }
      if v == |order| + 1 {
        assert R.Between(last, v) == {};
      }
    }
    if InOrder(order + [v]) {
      forall i | 0 <= i < |order| ensures order[i] == i + 1 {
        assert (order + [v])[i] == order[i];
      }
      assert (order + [v])[|order|] == v;
    }
  }

  /** One announcement, taken and delivered at once. */
  function Catch(s: State, v: nat): State {
    Next(Next(Next(s, Announce(v)), ByClient(0, R.TakeLive)), ByClient(0, R.Deliver))
  }

  lemma CatchClient(s: State, v: nat)
    requires Eager(s) && Announceable(s, v)
    ensures Catch(s, v).db == s.db && Catch(s, v).order == s.order + [v] && Catch(s, v).clients.Keys == {0}
    ensures var k, k' := s.clients[0], Catch(s, v).clients[0];
            && k'.conn.Some? && k'.conn.value.phase.Live? && k'.conn.value.queue == [] && k'.conn.value.wire == []
            && k'.conn.value.lastVersion == 0 && k'.overflowed == {}
            && k'.hubVersion == v && k'.lost == k.lost + R.Between(k.hubVersion, v)
  {
    var e := s.db.log[v - 1];
    assert e.version == v;
    var k := s.clients[0];
    var k1 := R.OfferTo(k, e);
    assert k1.conn.value.queue == [e];
    var k2 := R.ClientNext(s.db, |s.order| + 1, k1, R.TakeLive);
    assert k2.conn.value.wire == [ToEvent(e)];
    assert [ToEvent(e)][1..] == [];
  }

  lemma CatchEager(s: State, v: nat)
    requires Eager(s) && Announceable(s, v)
    ensures Eager(Catch(s, v))
  {
    CatchClient(s, v);
    NextInOrder(s.order, v);
    var k, k' := s.clients[0], Catch(s, v).clients[0];
    assert k'.lost == {} <==> k.lost == {} && R.Between(k.hubVersion, v) == {};
  }

  lemma RunSplit(s: State, a: Action, rest: seq<Action>)
    ensures Run(s, [a] + rest) == Run(Next(s, a), rest)
    ensures HubPart([a] + rest) == (if a.ByClient? then [] else [a]) + HubPart(rest)
  {
    assert ([a] + rest)[1..] == rest;
  }

  lemma {:induction false} EagerRun(s: State, hub: seq<Action>) returns (acts: seq<Action>)
    requires Eager(s) && HubOnly(hub)
    ensures HubPart(acts) == hub && Eager(Run(s, acts))
    decreases |hub|
  {
    if hub == [] {
      acts := [];
    } else {
      var a := hub[0];
      assert hub == [a] + hub[1..];
      if a.Announce? && Announceable(s, a.version) {
        CatchEager(s, a.version);
        var rest := EagerRun(Catch(s, a.version), hub[1..]);
        var take, deliver := ByClient(0, R.TakeLive), ByClient(0, R.Deliver);
        acts := [a] + ([take] + ([deliver] + rest));
        RunSplit(s, a, [take] + ([deliver] + rest));
        RunSplit(Next(s, a), take, [deliver] + rest);
        RunSplit(Next(Next(s, a), take), deliver, rest);
        assert [] + HubPart(rest) == HubPart(rest);
      } else {
        if a.Commit? {
          StoreStepKeeps(s.db, a.op);
        }
        var rest := EagerRun(Next(s, a), hub[1..]);
        acts := [a] + rest;
        RunSplit(s, a, rest);
      }
    }
  }

  /** A client that subscribes to the empty hub, before anything happens. */
  lemma EagerStart() returns (acts: seq<Action>)
    ensures HubPart(acts) == [] && Eager(Run(Init({0}), acts))
  {
    var c, q, g := ByClient(0, R.Connect), ByClient(0, R.Query), ByClient(0, R.GoLive);
    acts := [c] + ([q] + ([g] + []));
    var s := Init({0});
    RunSplit(s, c, [q] + ([g] + []));
    RunSplit(Next(s, c), q, [g] + []);
    RunSplit(Next(Next(s, c), q), g, []);
    assert Columns(EMPTY.entries) == map[];
    assert s.clients[0] == R.NEW_CLIENT;
    assert Since(EMPTY.log, 0) == [];
  }

  /** For everything a hub may do, commits and announcements in any order, there is
      a client, never overflowed, that skips a record if and only if the
      announcements are out of order. Such a record is below the client's cursor,
      so if the stream breaks then, no later subscription sends it. */
  lemma {:induction false} OrderMattersExactly(hub: seq<Action>) returns (acts: seq<Action>)
    requires HubOnly(hub)
    ensures HubPart(acts) == hub
    ensures var s := Run(Init({0}), acts);
            && 0 in s.clients && s.clients[0].overflowed == {}
            && (s.clients[0].lost == {} <==> InOrder(s.order))
  {
    var start := EagerStart();
    var rest := EagerRun(Run(Init({0}), start), hub);
    acts := start + rest;
    RunConcat(Init({0}), start, rest);
  }

  lemma {:induction false} RunConcat(s: State, a: seq<Action>, b: seq<Action>)
    ensures Run(s, a + b) == Run(Run(s, a), b)
    ensures HubPart(a + b) == HubPart(a) + HubPart(b)
    decreases |a|
  {
    if a == [] {
      assert a + b == b;
    } else {
      assert (a + b)[1..] == a[1..] + b;
      RunConcat(Next(s, a[0]), a[1..], b);
      Assoc(if a[0].ByClient? then [] else [a[0]], HubPart(a[1..]), HubPart(b));
    }
  }
}
