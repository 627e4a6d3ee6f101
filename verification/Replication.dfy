/** Log replication as a state machine: commits, broadcasts, subscriptions,
    backfills, live delivery, disconnects, reconnects, tree snapshots and restarts of
    the hub, in every interleaving. */
module Replication {
  import opened Types
  import opened ChangeLog
  import opened HubStore
  import opened Sync

  datatype Phase = Subscribed | Backfilling(rest: Log) | Live

  /** One open subscription. The first five fields are the handler's and the
      stream's; the rest only record history:
      sent        records written so far, of which the client has read `delivered`
      joined      records broadcast before the subscription
      taken       position of the last record taken from the channel
      upto        end of the backfill
      end         version of the last record written (or since)
      dropped     records broadcast while the channel was full
      missing     records skipped over in what was written */
  datatype Conn = Conn(
    since: nat, phase: Phase, queue: Log, lastVersion: nat, wire: seq<SyncEvent>,
    sent: Log, delivered: nat, joined: nat, taken: nat, upto: nat, end: nat,
    dropped: set<nat>, missing: set<nat>)

  /** A read-only client. base, stamp: the log length and the version stamp of
      its last snapshot (0 if it never took one). lost: records it skipped since;
      overflowed: records some connection of its dropped since. */
  datatype Client = Client(
    tree: Tree, hubVersion: nat, conn: Option<Conn>, pending: Option<nat>,
    base: nat, stamp: nat, lost: set<nat>, overflowed: set<nat>)

  datatype State = State(db: Db, announced: nat, clients: map<nat, Client>)

  datatype ClientAction =
    | Connect | Query | SendBackfill | GoLive | TakeLive | Deliver | Disconnect
    | RequestLatest | FetchTree

  datatype Action = Commit(op: StoreOp) | Broadcast | ByClient(id: nat, act: ClientAction) | Restart

  /** The versions strictly between two versions. */
  function Between(a: nat, b: nat): (versions: set<nat>)
    ensures forall u :: u in versions <==> a < u < b
  {
    if b <= a + 1 then {} else Between(a, b - 1) + {b - 1}
  }

  function NewConn(since: nat, announced: nat): Conn {
    Conn(since, Subscribed, [], since, [], [], 0, announced, announced, since, since, {}, {})
  }

  function Write(k: Conn, e: ChangeEntry): Conn {
    k.(wire := k.wire + [ToEvent(e)], sent := k.sent + [e], missing := k.missing + Between(k.end, e.version),
       end := e.version)
  }

  /** One step of a subscription handler. A disabled step changes nothing. */
  function HandlerNext(log: Log, k: Conn, act: ClientAction): Conn {
    match act
    case Query =>
      if k.phase.Subscribed? then k.(phase := Backfilling(Since(log, k.since)), upto := |log|) else k
    case SendBackfill =>
      if k.phase.Backfilling? && k.phase.rest != [] then
        var e := k.phase.rest[0];
        Write(k, e).(phase := Backfilling(k.phase.rest[1..]), lastVersion := e.version)
      else k
    case GoLive =>
      if k.phase == Backfilling([]) then k.(phase := Live) else k
    case TakeLive =>
      if k.phase.Live? && k.queue != [] then
        var e := k.queue[0];
        var popped := k.(queue := k.queue[1..], taken := e.version);
        if e.version <= k.lastVersion then popped else Write(popped, e)
      else k
    case _ => k
  }

  /** The client reads and applies one message. */
  function Received(k: Client, c: Conn): Client
    requires c.wire != []
  {
    var ev := c.wire[0];
    k.(tree := ApplyEvent(k.tree, ev), hubVersion := ev.version,
       conn := Some(c.(wire := c.wire[1..], delivered := c.delivered + 1)),
       lost := k.lost + Between(k.hubVersion, ev.version))
  }

  function Receive(k: Client): Client {
    if k.conn.Some? && k.conn.value.wire != [] then Received(k, k.conn.value) else k
  }

  function ClientNext(db: Db, announced: nat, k: Client, act: ClientAction): Client {
    match act
    case Connect =>
      if k.conn.None? && k.pending.None? then k.(conn := Some(NewConn(k.hubVersion, announced))) else k
    case Deliver => Receive(k)
    case Disconnect => k.(conn := None)
    case RequestLatest =>
      if k.conn.None? && db.log != [] then k.(pending := Some(|db.log|)) else k
    case FetchTree =>
      if k.conn.None? && k.pending.Some? then
        var v := k.pending.value;
        Client(Labelled(map p | p in db.entries :: db.entries[p].meta, v), v, None, None, |db.log|, v, {}, {})
      else k
    case _ =>
      if k.conn.Some? then k.(conn := Some(HandlerNext(db.log, k.conn.value, act))) else k
  }

  function OfferTo(k: Client, e: ChangeEntry): Client {
    if k.conn.None? then k
    else
      var c := k.conn.value;
      var full := |c.queue| >= CHANNEL_SLOTS;
      k.(conn := Some(c.(queue := Offer(c.queue, e), dropped := if full then c.dropped + {e.version} else c.dropped)),
         overflowed := if full then k.overflowed + {e.version} else k.overflowed)
  }

  function OfferAll(clients: map<nat, Client>, e: ChangeEntry): map<nat, Client> {
    map c | c in clients :: OfferTo(clients[c], e)
  }

  /** The hub restarts: every connection drops, and what was committed and not yet
      announced never is. */
  function Restarted(s: State): State {
    State(s.db, |s.db.log|, map c | c in s.clients :: s.clients[c].(conn := None))
  }

  function Next(s: State, a: Action): State {
    match a
    case Commit(op) => s.(db := StoreStep(s.db, op))
    case Broadcast =>
      if s.announced < |s.db.log| then
        State(s.db, s.announced + 1, OfferAll(s.clients, s.db.log[s.announced]))
      else s
    case ByClient(id, act) =>
      if id in s.clients then s.(clients := s.clients[id := ClientNext(s.db, s.announced, s.clients[id], act)]) else s
    case Restart => Restarted(s)
  }

  function Run(s: State, acts: seq<Action>): State
    decreases |acts|
  {
    if acts == [] then s else Run(Next(s, acts[0]), acts[1..])
  }

  const NEW_CLIENT: Client := Client(map[], 0, None, None, 0, 0, {}, {})

  function Init(ids: set<nat>): State {
    State(EMPTY, 0, map c | c in ids :: NEW_CLIENT)
  }

  // ---- Stretches of log with holes --------------------------------------------

  /** The records of versions i+1 to j, except those in holes. */
  function Keep(log: Log, i: nat, j: nat, holes: set<nat>): Log
    requires i <= j <= |log|
  {
    if i == j then [] else Keep(log, i, j - 1, holes) + (if j in holes then [] else [log[j - 1]])
  }

  lemma {:induction false} KeepSame(log: Log, log': Log, i: nat, j: nat, holes: set<nat>, holes': set<nat>)
    requires i <= j <= |log| && j <= |log'|
    requires forall u :: 0 <= u < j ==> log[u] == log'[u]
    requires forall u :: i < u <= j ==> (u in holes <==> u in holes')
    ensures Keep(log, i, j, holes) == Keep(log', i, j, holes')
  {
    if i < j {
      KeepSame(log, log', i, j - 1, holes, holes');
    }
  }

  lemma {:induction false} KeepSplit(log: Log, i: nat, m: nat, j: nat, holes: set<nat>)
    requires i <= m <= j <= |log|
    ensures Keep(log, i, j, holes) == Keep(log, i, m, holes) + Keep(log, m, j, holes)
  {
    if m < j {
      KeepSplit(log, i, m, j - 1, holes);
      Assoc(Keep(log, i, m, holes), Keep(log, m, j - 1, holes), if j in holes then [] else [log[j - 1]]);
    }
  }

  lemma {:induction false} KeepNone(log: Log, i: nat, j: nat, holes: set<nat>)
    requires i <= j <= |log|
    ensures Keep(log, i, j, holes) == [] <==> forall u :: i < u <= j ==> u in holes
  {
    if i < j {
      KeepNone(log, i, j - 1, holes);
    }
  }

  lemma {:induction false} KeepAll(log: Log, i: nat, j: nat)
    requires i <= j <= |log|
    ensures Keep(log, i, j, {}) == log[i..j]
  {
    if i < j {
      KeepAll(log, i, j - 1);
      assert log[i..j] == log[i..j - 1] + [log[j - 1]];
    }
  }

  /** Skipping exactly the holes in between, the next record is v's. */
  lemma KeepStep(log: Log, i: nat, end: nat, v: nat, holes: set<nat>)
    requires Dense(log) && i <= end < v <= |log|
    requires forall u :: u in holes ==> u <= end
    ensures Keep(log, i, v, holes + Between(end, v)) == Keep(log, i, end, holes) + [log[v - 1]]
  {
    var wider := holes + Between(end, v);
    KeepSplit(log, i, end, v, wider);
    KeepSame(log, log, i, end, holes, wider);
    KeepNone(log, end, v - 1, wider);
  }

  /** Where the first kept record sits. */
  lemma {:induction false} KeepHead(log: Log, i: nat, j: nat, holes: set<nat>) returns (w: nat)
    requires Dense(log) && i <= j <= |log| && Keep(log, i, j, holes) != []
    ensures i <= w < j && Keep(log, i, j, holes)[0] == log[w]
    ensures w + 1 !in holes && forall u :: i < u <= w ==> u in holes
    ensures Keep(log, w + 1, j, holes) == Keep(log, i, j, holes)[1..]
  {
    var front := Keep(log, i, j - 1, holes);
    if front != [] {
      w := KeepHead(log, i, j - 1, holes);
      KeepSplit(log, i, w + 1, j, holes);
      KeepSplit(log, i, w + 1, j - 1, holes);
    } else {
      KeepNone(log, i, j - 1, holes);
      w := j - 1;
    }
  }

  function Before(sent: Log, since: nat, d: nat): nat
    requires d <= |sent|
  {
    if d == 0 then since else sent[d - 1].version
  }

  /** Kept records are the log's own, in version order, and everything stepped
      over between two of them is a hole. */
  lemma {:induction false} KeepOrder(log: Log, i: nat, j: nat, holes: set<nat>, d: nat)
    requires Dense(log) && i <= j <= |log| && d < |Keep(log, i, j, holes)|
    ensures var kept := Keep(log, i, j, holes);
            var v := kept[d].version;
            && Before(kept, i, d) < v <= j && kept[d] == log[v - 1] && v !in holes
            && forall u :: Before(kept, i, d) < u < v ==> u in holes
  {
    var front := Keep(log, i, j - 1, holes);
    if d < |front| {
      KeepOrder(log, i, j - 1, holes, d);
    } else {
      KeepTail(log, i, j - 1, holes);
    }
  }

  lemma {:induction false} KeepTail(log: Log, i: nat, j: nat, holes: set<nat>)
    requires Dense(log) && i <= j <= |log|
    ensures var kept := Keep(log, i, j, holes);
            var b := Before(kept, i, |kept|);
            i <= b <= j && forall u :: b < u <= j ==> u in holes
  {
    if i < j {
      KeepTail(log, i, j - 1, holes);
    }
  }

  // ---- Invariant ----------------------------------------------------------------

  /** What the written part of a stream satisfies. */
  ghost predicate Written(log: Log, hubVersion: nat, k: Conn) {
    && k.since <= k.end <= |log|
    && k.sent == Keep(log, k.since, k.end, k.missing)
    && (forall v :: v in k.missing ==> v <= k.end)
    && k.delivered <= |k.sent|
    && k.wire == Events(k.sent[k.delivered..])
    && hubVersion == Before(k.sent, k.since, k.delivered)
  }

  /** What the channel holds. */
  ghost predicate Queued(log: Log, announced: nat, overflowed: set<nat>, k: Conn) {
    && k.joined <= k.taken <= announced <= |log|
    && k.queue == Keep(log, k.taken, announced, k.dropped)
    && (forall v :: v in k.dropped ==> v <= announced)
    && k.dropped <= overflowed
  }

  /** Where the handler stands. */
  ghost predicate Phased(log: Log, k: Conn) {
    match k.phase
    case Subscribed =>
      k.end == k.since == k.lastVersion && k.missing == {} && k.taken == k.joined
    case Backfilling(rest) =>
      && k.missing == {} && k.taken == k.joined <= k.upto <= |log|
      && k.lastVersion == k.end <= k.upto && rest == log[k.end..k.upto]
    case Live =>
      && k.joined <= k.upto && k.lastVersion == k.upto <= k.end && k.taken <= k.end
      && (k.end == k.upto || k.end == k.taken)
      && forall v :: v in k.missing <==> v in k.dropped && k.upto < v <= k.end
  }

  ghost predicate ConnInv(log: Log, announced: nat, hubVersion: nat, overflowed: set<nat>, k: Conn) {
    Written(log, hubVersion, k) && Queued(log, announced, overflowed, k) && Phased(log, k)
  }

  function Metas(tree: Tree): map<Path, Meta> {
    map p | p in tree :: tree[p].meta
  }

  /** The snapshot's tree with the records since replayed, less the lost ones. */
  ghost predicate TreeInv(log: Log, tree: Tree, base: nat, stamp: nat, hubVersion: nat, lost: set<nat>) {
    && stamp <= hubVersion <= |log| && stamp <= base <= |log|
    && Metas(tree) == Metas(Replay(Fold(log[..base]), Keep(log, stamp, hubVersion, lost)))
    && (base == 0 ==> tree == Replay(map[], Keep(log, stamp, hubVersion, lost)))
  }

  ghost predicate LostInv(k: Client) {
    k.lost <= k.overflowed && forall v :: v in k.lost ==> k.stamp < v <= k.hubVersion
  }

  ghost predicate ClientInv(log: Log, announced: nat, k: Client) {
    && TreeInv(log, k.tree, k.base, k.stamp, k.hubVersion, k.lost)
    && LostInv(k)
    && (k.pending.Some? ==> k.conn.None? && k.pending.value <= |log|)
    && (k.conn.Some? ==> ConnInv(log, announced, k.hubVersion, k.overflowed, k.conn.value))
  }

  ghost predicate ClientsInv(log: Log, announced: nat, clients: map<nat, Client>) {
    forall c :: c in clients ==> ClientInv(log, announced, clients[c])
  }

  ghost predicate Inv(s: State) {
    && Consistent(s.db)
    && s.announced <= |s.db.log|
    && ClientsInv(s.db.log, s.announced, s.clients)
  }

  // ---- Steps keep the invariant --------------------------------------------------

  ghost predicate Extends(log: Log, log': Log) {
    |log| <= |log'| && log'[..|log|] == log
  }

  lemma KeepGrows(log: Log, log': Log, i: nat, j: nat, holes: set<nat>)
    requires Extends(log, log') && i <= j <= |log|
    ensures Keep(log', i, j, holes) == Keep(log, i, j, holes)
  {
    assert forall u :: 0 <= u < |log| ==> log'[u] == log'[..|log|][u];
    KeepSame(log, log', i, j, holes, holes);
  }

  lemma SliceGrows(log: Log, log': Log, i: nat, j: nat)
    requires Extends(log, log') && i <= j <= |log|
    ensures log'[i..j] == log[i..j]
  {
    forall u | 0 <= u < j - i ensures log'[i..j][u] == log[i..j][u] {
      assert log'[..|log|][i + u] == log'[i + u];
    }
  }

  lemma ConnGrows(log: Log, log': Log, announced: nat, hubVersion: nat, overflowed: set<nat>, k: Conn)
    requires Extends(log, log') && ConnInv(log, announced, hubVersion, overflowed, k)
    ensures ConnInv(log', announced, hubVersion, overflowed, k)
  {
    KeepGrows(log, log', k.since, k.end, k.missing);
    KeepGrows(log, log', k.taken, announced, k.dropped);
    if k.phase.Backfilling? {
      SliceGrows(log, log', k.end, k.upto);
    }
  }

  lemma ClientGrows(log: Log, log': Log, announced: nat, k: Client)
    requires Extends(log, log') && ClientInv(log, announced, k)
    ensures ClientInv(log', announced, k)
  {
    SliceGrows(log, log', 0, k.base);
    assert log'[..k.base] == log'[0..k.base] && log[..k.base] == log[0..k.base];
    KeepGrows(log, log', k.stamp, k.hubVersion, k.lost);
    if k.conn.Some? {
      ConnGrows(log, log', announced, k.hubVersion, k.overflowed, k.conn.value);
    }
  }

  lemma CommitKeeps(s: State, op: StoreOp)
    requires Inv(s)
    ensures Inv(Next(s, Commit(op)))
  {
    StoreStepKeeps(s.db, op);
    var db' := StoreStep(s.db, op);
    assert Extends(s.db.log, db'.log);
    forall c | c in s.clients ensures ClientInv(db'.log, s.announced, s.clients[c]) {
      ClientGrows(s.db.log, db'.log, s.announced, s.clients[c]);
    }
  }

  /** The versions a channel has dropped after being offered one more record. */
  function DroppedAfter(k: Conn, e: ChangeEntry): set<nat> {
    if |k.queue| >= CHANNEL_SLOTS then k.dropped + {e.version} else k.dropped
  }

  lemma OfferQueue(log: Log, announced: nat, k: Conn)
    requires Dense(log) && k.taken <= announced < |log|
    requires k.queue == Keep(log, k.taken, announced, k.dropped) && forall v :: v in k.dropped ==> v <= announced
    ensures Offer(k.queue, log[announced]) == Keep(log, k.taken, announced + 1, DroppedAfter(k, log[announced]))
  {
    var dropped' := DroppedAfter(k, log[announced]);
    KeepSame(log, log, k.taken, announced, k.dropped, dropped');
    assert k.queue + [] == k.queue;
  }

  lemma OfferQueued(log: Log, announced: nat, overflowed: set<nat>, k: Conn)
    requires Dense(log) && announced < |log| && Queued(log, announced, overflowed, k)
    ensures var v := log[announced].version;
            if |k.queue| < CHANNEL_SLOTS then Queued(log, announced + 1, overflowed,
                                                     k.(queue := Offer(k.queue, log[announced])))
            else Queued(log, announced + 1, overflowed + {v},
                        k.(queue := Offer(k.queue, log[announced]), dropped := k.dropped + {v}))
  {
    OfferQueue(log, announced, k);
  }

  /** A record dropped now lies beyond what was written. */
  lemma DropPhased(log: Log, announced: nat, k: Conn, queue: Log, v: nat)
    requires Phased(log, k) && k.end <= |log| && k.taken <= announced && announced < v
    requires k.phase.Live? ==> k.upto < k.end ==> k.end <= announced
    ensures Phased(log, k.(queue := queue, dropped := k.dropped + {v}))
  {}

  lemma OfferRoom(log: Log, announced: nat, hubVersion: nat, overflowed: set<nat>, k: Conn)
    requires Dense(log) && announced < |log| && ConnInv(log, announced, hubVersion, overflowed, k)
    requires |k.queue| < CHANNEL_SLOTS
    ensures ConnInv(log, announced + 1, hubVersion, overflowed, k.(queue := Offer(k.queue, log[announced])))
  {
    OfferQueued(log, announced, overflowed, k);
  }

  lemma OfferFull(log: Log, announced: nat, hubVersion: nat, overflowed: set<nat>, k: Conn)
    requires Dense(log) && announced < |log| && ConnInv(log, announced, hubVersion, overflowed, k)
    requires |k.queue| >= CHANNEL_SLOTS
    ensures var v := log[announced].version;
            ConnInv(log, announced + 1, hubVersion, overflowed + {v},
                    k.(queue := Offer(k.queue, log[announced]), dropped := k.dropped + {v}))
  {
    OfferQueued(log, announced, overflowed, k);
    DropPhased(log, announced, k, Offer(k.queue, log[announced]), log[announced].version);
  }

  lemma OfferKeeps(log: Log, announced: nat, hubVersion: nat, overflowed: set<nat>, k: Conn)
    requires Dense(log) && announced < |log| && ConnInv(log, announced, hubVersion, overflowed, k)
    ensures var e := log[announced];
            var full := |k.queue| >= CHANNEL_SLOTS;
            var k' := k.(queue := Offer(k.queue, e), dropped := if full then k.dropped + {e.version} else k.dropped);
            ConnInv(log, announced + 1, hubVersion, if full then overflowed + {e.version} else overflowed, k')
  {
    if |k.queue| >= CHANNEL_SLOTS {
      OfferFull(log, announced, hubVersion, overflowed, k);
    } else {
      OfferRoom(log, announced, hubVersion, overflowed, k);
    }
  }

  lemma OfferClientKeeps(log: Log, announced: nat, k: Client)
    requires Dense(log) && announced < |log| && ClientInv(log, announced, k)
    ensures ClientInv(log, announced + 1, OfferTo(k, log[announced]))
  {
    if k.conn.Some? {
      OfferKeeps(log, announced, k.hubVersion, k.overflowed, k.conn.value);
    }
  }

  lemma AllOffered(log: Log, announced: nat, clients: map<nat, Client>)
    requires Dense(log) && announced < |log| && ClientsInv(log, announced, clients)
    ensures ClientsInv(log, announced + 1, OfferAll(clients, log[announced]))
  {
    var offered := OfferAll(clients, log[announced]);
    forall c | c in offered ensures ClientInv(log, announced + 1, offered[c]) {
      OfferClientKeeps(log, announced, clients[c]);
    }
  }

  lemma InvOfParts(db: Db, announced: nat, clients: map<nat, Client>)
    requires Consistent(db) && announced <= |db.log| && ClientsInv(db.log, announced, clients)
    ensures Inv(State(db, announced, clients))
  {}

  lemma NextBroadcast(s: State)
    requires s.announced < |s.db.log|
    ensures Next(s, Broadcast) == State(s.db, s.announced + 1, OfferAll(s.clients, s.db.log[s.announced]))
  {}

  lemma BroadcastKeeps(s: State)
    requires Inv(s) && s.announced < |s.db.log|
    ensures Inv(Next(s, Broadcast))
  {
    NextBroadcast(s);
    AllOffered(s.db.log, s.announced, s.clients);
    InvOfParts(s.db, s.announced + 1, OfferAll(s.clients, s.db.log[s.announced]));
  }

  lemma WireAppend(sent: Log, delivered: nat, e: ChangeEntry)
    requires delivered <= |sent|
    ensures Events((sent + [e])[delivered..]) == Events(sent[delivered..]) + [ToEvent(e)]
  {
    assert (sent + [e])[delivered..] == sent[delivered..] + [e];
    EventsSnoc(sent[delivered..], e);
  }

  lemma WriteKeeps(log: Log, k: Conn, hubVersion: nat, v: nat)
    requires Dense(log) && Written(log, hubVersion, k) && k.end < v <= |log|
    ensures Written(log, hubVersion, Write(k, log[v - 1]))
  {
    var e := log[v - 1];
    KeepStep(log, k.since, k.end, v, k.missing);
    WireAppend(k.sent, k.delivered, e);
    BeforeSame(k.sent, e, k.since, k.delivered);
  }

  lemma BeforeSame(sent: Log, e: ChangeEntry, since: nat, d: nat)
    requires d <= |sent|
    ensures Before(sent + [e], since, d) == Before(sent, since, d)
  {}

  lemma QueryKeeps(log: Log, announced: nat, hubVersion: nat, overflowed: set<nat>, k: Conn)
    requires Dense(log) && ConnInv(log, announced, hubVersion, overflowed, k)
    ensures ConnInv(log, announced, hubVersion, overflowed, HandlerNext(log, k, Query))
  {
    SinceIsSuffix(log, k.since);
    assert log[k.since..] == log[k.since..|log|];
  }

  /** One backfill write, in terms of the log. */
  function Backfilled(log: Log, k: Conn): Conn
    requires k.end < k.upto <= |log|
  {
    Write(k, log[k.end]).(phase := Backfilling(log[k.end + 1..k.upto]), lastVersion := k.end + 1)
  }

  lemma NextBackfill(log: Log, k: Conn)
    requires Dense(log) && k.end <= |log| && Phased(log, k) && k.phase.Backfilling? && k.phase.rest != []
    ensures k.end < k.upto && HandlerNext(log, k, SendBackfill) == Backfilled(log, k)
  {
    assert k.phase.rest[0] == log[k.end];
    assert log[k.end..k.upto][1..] == log[k.end + 1..k.upto];
  }

  lemma BackfilledPhased(log: Log, k: Conn)
    requires Dense(log) && k.end < k.upto <= |log| && Phased(log, k) && k.phase.Backfilling?
    ensures Phased(log, Backfilled(log, k))
  {
    assert Between(k.end, k.end + 1) == {};
  }

  lemma BackfilledKeeps(log: Log, announced: nat, hubVersion: nat, overflowed: set<nat>, k: Conn)
    requires Dense(log) && ConnInv(log, announced, hubVersion, overflowed, k)
    requires k.end < k.upto <= |log| && k.phase.Backfilling?
    ensures ConnInv(log, announced, hubVersion, overflowed, Backfilled(log, k))
  {
    WriteKeeps(log, k, hubVersion, k.end + 1);
    BackfilledPhased(log, k);
  }

  lemma SendBackfillKeeps(log: Log, announced: nat, hubVersion: nat, overflowed: set<nat>, k: Conn)
    requires Dense(log) && ConnInv(log, announced, hubVersion, overflowed, k)
    ensures ConnInv(log, announced, hubVersion, overflowed, HandlerNext(log, k, SendBackfill))
  {
    if k.phase.Backfilling? && k.phase.rest != [] {
      NextBackfill(log, k);
      BackfilledKeeps(log, announced, hubVersion, overflowed, k);
    }
  }

  /** After a live write the holes are exactly the drops above the backfill. */
  lemma MissingIsDropped(k: Conn, w: nat, e: ChangeEntry)
    requires k.upto <= k.end <= w && k.upto <= w && e.version == w + 1 && w + 1 !in k.dropped
    requires forall v :: v in k.missing <==> v in k.dropped && k.upto < v <= k.end
    requires forall v :: k.end < v <= w ==> v in k.dropped
    ensures forall v :: v in Write(k, e).missing <==> v in k.dropped && k.upto < v <= w + 1
  {}

  lemma SkipKeeps(log: Log, announced: nat, hubVersion: nat, overflowed: set<nat>, k: Conn, w: nat)
    requires ConnInv(log, announced, hubVersion, overflowed, k) && k.phase.Live?
    requires k.taken <= w < announced && w + 1 <= k.lastVersion
    ensures ConnInv(log, announced, hubVersion, overflowed,
                    k.(queue := Keep(log, w + 1, announced, k.dropped), taken := w + 1))
  {}

  lemma ForwardKeeps(log: Log, announced: nat, hubVersion: nat, overflowed: set<nat>, k: Conn, w: nat)
    requires Dense(log) && ConnInv(log, announced, hubVersion, overflowed, k) && k.phase.Live?
    requires k.taken <= w < announced && k.lastVersion <= w
    requires w + 1 !in k.dropped && forall u :: k.taken < u <= w ==> u in k.dropped
    ensures var popped := k.(queue := Keep(log, w + 1, announced, k.dropped), taken := w + 1);
            ConnInv(log, announced, hubVersion, overflowed, Write(popped, log[w]))
  {
    var popped := k.(queue := Keep(log, w + 1, announced, k.dropped), taken := w + 1);
    assert Written(log, hubVersion, popped);
    WriteKeeps(log, popped, hubVersion, w + 1);
    MissingIsDropped(popped, w, log[w]);
  }

  lemma TakeLiveKeeps(log: Log, announced: nat, hubVersion: nat, overflowed: set<nat>, k: Conn)
    requires Dense(log) && ConnInv(log, announced, hubVersion, overflowed, k)
    ensures ConnInv(log, announced, hubVersion, overflowed, HandlerNext(log, k, TakeLive))
  {
    if k.phase.Live? && k.queue != [] {
      var w := KeepHead(log, k.taken, announced, k.dropped);
      assert k.queue[0] == log[w] && log[w].version == w + 1;
      if w + 1 <= k.lastVersion {
        SkipKeeps(log, announced, hubVersion, overflowed, k, w);
      } else {
        ForwardKeeps(log, announced, hubVersion, overflowed, k, w);
      }
    }
  }

  lemma HandlerKeeps(log: Log, announced: nat, hubVersion: nat, overflowed: set<nat>, k: Conn, act: ClientAction)
    requires Dense(log) && ConnInv(log, announced, hubVersion, overflowed, k)
    ensures ConnInv(log, announced, hubVersion, overflowed, HandlerNext(log, k, act))
  {
    match act
    case Query => QueryKeeps(log, announced, hubVersion, overflowed, k);
    case SendBackfill => SendBackfillKeeps(log, announced, hubVersion, overflowed, k);
    case TakeLive => TakeLiveKeeps(log, announced, hubVersion, overflowed, k);
    case GoLive =>
      if k.phase == Backfilling([]) {
        assert k.end == k.upto;
      }
    case _ =>
  }

  lemma MetasOfReplaySnoc(tree: Tree, base: Tree, log: Log, e: ChangeEntry)
    requires Metas(tree) == Metas(Replay(base, log))
    ensures Metas(ApplyRecord(tree, e)) == Metas(Replay(base, log + [e]))
  {
    ReplaySnoc(base, log, e);
    MetasOfApply(tree, Replay(base, log), e);
  }

  lemma MetasOfApply(a: Tree, b: Tree, e: ChangeEntry)
    requires Metas(a) == Metas(b)
    ensures Metas(ApplyRecord(a, e)) == Metas(ApplyRecord(b, e))
  {
    MetasApply(a, e);
    MetasApply(b, e);
  }

  lemma MetasApply(a: Tree, e: ChangeEntry)
    ensures Metas(ApplyRecord(a, e)) == if e.op.Delete? then Metas(a) - {e.path} else Metas(a)[e.path := e.meta]
  {}

  lemma EventsTail(sent: Log, d: nat)
    requires d < |sent|
    ensures Events(sent[d..]) == [ToEvent(sent[d])] + Events(sent[d + 1..])
  {
    assert sent[d..] == [sent[d]] + sent[d + 1..];
    EventsConcat([sent[d]], sent[d + 1..]);
    EventsSnoc([], sent[d]);
    assert [] + [sent[d]] == [sent[d]];
  }

  /** The read end of the stream: one record later, the holes in between lost. */
  lemma ReceiveConn(log: Log, hubVersion: nat, k: Conn)
    requires Dense(log) && Written(log, hubVersion, k) && k.wire != []
    ensures var v := k.wire[0].version;
            && hubVersion < v <= |log| && k.wire[0] == ToEvent(log[v - 1])
            && Between(hubVersion, v) <= k.missing
            && Written(log, v, k.(wire := k.wire[1..], delivered := k.delivered + 1))
  {
    var d := k.delivered;
    KeepOrder(log, k.since, k.end, k.missing, d);
    EventsTail(k.sent, d);
  }

  /** The client's tree after one more record with holes skipped. */
  lemma ReceiveTree(log: Log, tree: Tree, base: nat, stamp: nat, hubVersion: nat, lost: set<nat>, v: nat)
    requires Dense(log) && TreeInv(log, tree, base, stamp, hubVersion, lost) && hubVersion < v <= |log|
    requires forall u :: u in lost ==> u <= hubVersion
    ensures TreeInv(log, ApplyEvent(tree, ToEvent(log[v - 1])), base, stamp, v, lost + Between(hubVersion, v))
  {
    var kept := Keep(log, stamp, hubVersion, lost);
    KeepStep(log, stamp, hubVersion, v, lost);
    EventFaithful(tree, log[v - 1]);
    MetasOfReplaySnoc(tree, Fold(log[..base]), kept, log[v - 1]);
    ReplaySnoc(map[], kept, log[v - 1]);
  }

  lemma ReceiveConnKeeps(log: Log, announced: nat, hubVersion: nat, overflowed: set<nat>, k: Conn)
    requires Dense(log) && ConnInv(log, announced, hubVersion, overflowed, k) && k.wire != []
    ensures ConnInv(log, announced, k.wire[0].version, overflowed,
                    k.(wire := k.wire[1..], delivered := k.delivered + 1))
    ensures Between(hubVersion, k.wire[0].version) <= k.missing <= overflowed && hubVersion < k.wire[0].version
  {
    ReceiveConn(log, hubVersion, k);
  }

  lemma ReceivedTree(log: Log, k: Client, c: Conn)
    requires Dense(log) && TreeInv(log, k.tree, k.base, k.stamp, k.hubVersion, k.lost) && LostInv(k)
    requires c.wire != [] && Written(log, k.hubVersion, c)
    ensures var k' := Received(k, c);
            TreeInv(log, k'.tree, k'.base, k'.stamp, k'.hubVersion, k'.lost)
  {
    ReceiveConn(log, k.hubVersion, c);
    ReceiveTree(log, k.tree, k.base, k.stamp, k.hubVersion, k.lost, c.wire[0].version);
  }

  lemma ReceivedKeeps(log: Log, announced: nat, k: Client, c: Conn)
    requires Dense(log) && ClientInv(log, announced, k) && k.conn == Some(c) && c.wire != []
    ensures ClientInv(log, announced, Received(k, c))
  {
    ReceivedTree(log, k, c);
    ReceiveConnKeeps(log, announced, k.hubVersion, k.overflowed, c);
    LostGrows(k, c);
  }

  lemma LostGrows(k: Client, c: Conn)
    requires c.wire != [] && k.stamp <= k.hubVersion < c.wire[0].version && LostInv(k)
    requires Between(k.hubVersion, c.wire[0].version) <= c.missing <= k.overflowed
    ensures LostInv(Received(k, c))
  {}

  lemma FetchTreeKeeps(db: Db, announced: nat, k: Client)
    requires Consistent(db) && announced <= |db.log| && ClientInv(db.log, announced, k)
    ensures ClientInv(db.log, announced, ClientNext(db, announced, k, FetchTree))
  {
    if k.conn.None? && k.pending.Some? {
      var v := k.pending.value;
      var metas := map p | p in db.entries :: db.entries[p].meta;
      assert db.log[..|db.log|] == db.log;
      assert Metas(Labelled(metas, v)) == metas == Metas(Columns(db.entries));
      if |db.log| == 0 {
        assert Fold(db.log) == map[];
        assert Labelled(metas, v) == map[];
      }
    }
  }

  lemma ConnectKeeps(log: Log, announced: nat, k: Client)
    requires announced <= |log| && ClientInv(log, announced, k)
    ensures ConnInv(log, announced, k.hubVersion, k.overflowed, NewConn(k.hubVersion, announced))
  {}

  lemma ClientNextKeeps(db: Db, announced: nat, k: Client, act: ClientAction)
    requires Consistent(db) && announced <= |db.log| && ClientInv(db.log, announced, k)
    ensures ClientInv(db.log, announced, ClientNext(db, announced, k, act))
  {
    match act
    case Connect => ConnectKeeps(db.log, announced, k);
    case Deliver =>
      if k.conn.Some? && k.conn.value.wire != [] {
        ReceivedKeeps(db.log, announced, k, k.conn.value);
      }
    case Disconnect =>
    case RequestLatest =>
    case FetchTree => FetchTreeKeeps(db, announced, k);
    case _ =>
      if k.conn.Some? {
        HandlerKeeps(db.log, announced, k.hubVersion, k.overflowed, k.conn.value, act);
      }
  }

  lemma RestartKeeps(s: State)
    requires Inv(s)
    ensures Inv(Restarted(s))
  {
    forall c | c in s.clients ensures ClientInv(s.db.log, |s.db.log|, s.clients[c].(conn := None)) {
      assert ClientInv(s.db.log, s.announced, s.clients[c]);
    }
  }

  lemma NextKeeps(s: State, a: Action)
    requires Inv(s)
    ensures Inv(Next(s, a))
  {
    match a
    case Commit(op) => CommitKeeps(s, op);
    case Broadcast =>
      if s.announced < |s.db.log| {
        BroadcastKeeps(s);
      }
    case ByClient(id, act) =>
      if id in s.clients {
        ClientNextKeeps(s.db, s.announced, s.clients[id], act);
      }
    case Restart => RestartKeeps(s);
  }
}
