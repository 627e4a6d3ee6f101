/** The task table, the feeder and the archive of a drained queue
    (internal/taskrunner: runner.go, plan.go, archive.go). */
module Tasks {
  import opened Types
  import opened ChangeLog
  import opened Order

  type Id = string

  datatype Status = Pending | Running | Done | Failed

  /** heartbeat is in whole seconds; None is NULL. */
  datatype TaskRow = TaskRow(status: Status, attempts: nat, heartbeat: Option<int>, result: Option<string>)

  type Table = map<Id, TaskRow>

  /** Options after their defaults are filled in: the attempt limit is positive;
      stale is in whole seconds. */
  datatype Options = Options(maxAttempts: nat, stale: nat, keepDb: bool)

  const SEEDED: TaskRow := TaskRow(Pending, 0, None, None)

  // ---- Claim, beat, terminal write ------------------------------------------------

  predicate Stale(row: TaskRow, now: int, o: Options) {
    row.heartbeat.None? || row.heartbeat.value < now - o.stale
  }

  predicate Eligible(row: TaskRow, now: int, o: Options) {
    || row.status.Pending?
    || (row.status.Failed? && row.attempts < o.maxAttempts)
    || (row.status.Running? && Stale(row, now, o))
  }

  predicate Claimable(t: Table, id: Id, now: int, o: Options) {
    id in t && Eligible(t[id], now, o)
  }

  /** Every row can be claimed but one that is done, failed for the last time, or running
      with a heartbeat no older than Stale. */
  lemma ClaimableExactly(t: Table, id: Id, now: int, o: Options)
    requires id in t
    ensures !Claimable(t, id, now, o) <==>
            || t[id].status.Done?
            || (t[id].status.Failed? && t[id].attempts >= o.maxAttempts)
            || (t[id].status.Running? && t[id].heartbeat.Some? && now - t[id].heartbeat.value <= o.stale)
  {}

  function Claimed(row: TaskRow, now: int): TaskRow {
    row.(status := Running, attempts := row.attempts + 1, heartbeat := Some(now))
  }

  function ClaimIn(t: Table, id: Id, now: int, o: Options): Table {
    if Claimable(t, id, now, o) then t[id := Claimed(t[id], now)] else t
  }

  function BeatIn(t: Table, id: Id, now: int): Table {
    if id in t then t[id := t[id].(heartbeat := Some(now))] else t
  }

  function Ended(row: TaskRow, ok: bool, result: Option<string>, now: int): TaskRow {
    if ok then row.(status := Done, heartbeat := Some(now), result := if result.Some? then result else row.result)
    else row.(status := Failed, heartbeat := Some(now))
  }

  /** No ownership check: whoever writes last, wins. */
  function EndIn(t: Table, id: Id, ok: bool, result: Option<string>, now: int): Table {
    if id in t then t[id := Ended(t[id], ok, result, now)] else t
  }

  // ---- The feeder -----------------------------------------------------------------------

  /** One emission: a row as of this many attempts. */
  datatype Item = Item(id: Id, attempts: nat)

  type Seen = map<Id, nat>

  function SeenAt(seen: Seen, id: Id): int {
    if id in seen then seen[id] else -1
  }

  /** The work-queue predicate, with the user's filter. */
  predicate InQueue(t: Table, id: Id, now: int, o: Options, filter: (Id, TaskRow) -> bool) {
    Claimable(t, id, now, o) && filter(id, t[id])
  }

  /** One pass over the work queue, in the order of ids. */
  function Fetch(ids: seq<Id>, t: Table, now: int, o: Options, filter: (Id, TaskRow) -> bool, seen: Seen): (seq<Item>,
      Seen) {
    if ids == [] then ([], seen)
    else
      var (batch, seen') := Fetch(Front(ids), t, now, o, filter, seen);
      var id := Last(ids);
      if InQueue(t, id, now, o, filter) && t[id].attempts > SeenAt(seen', id) then
        (batch + [Item(id, t[id].attempts)], seen'[id := t[id].attempts])
      else (batch, seen')
  }

  /** How much of its dedup budget each row has used up. */
  function Spent(ids: seq<Id>, seen: Seen): nat {
    if ids == [] then 0 else Spent(Front(ids), seen) + (SeenAt(seen, Last(ids)) + 1)
  }

  lemma {:induction false} SpentBump(ids: seq<Id>, seen: Seen, id: Id, a: nat)
    requires a > SeenAt(seen, id)
    ensures Spent(ids, seen[id := a]) >= Spent(ids, seen)
    ensures id in ids ==> Spent(ids, seen[id := a]) > Spent(ids, seen)
  {
    if ids != [] {
      SpentBump(Front(ids), seen, id, a);
      if id in ids && id != Last(ids) {
        assert id in Front(ids);
      }
    }
  }

  ghost predicate SeenWithin(seen: Seen, cap: nat) {
    forall id :: id in seen ==> seen[id] <= cap
  }

  lemma {:induction false} SpentWithin(ids: seq<Id>, seen: Seen, cap: nat)
    requires SeenWithin(seen, cap)
    ensures Spent(ids, seen) <= |ids| * (cap + 1)
  {
    if ids != [] {
      SpentWithin(Front(ids), seen, cap);
      assert |ids| * (cap + 1) == |Front(ids)| * (cap + 1) + (cap + 1);
    }
  }

  /** The history of a feeder: a row is emitted again only with more attempts, so
      nothing is emitted twice, and the emissions are paid for by what was seen. */
  ghost predicate Trail(emitted: seq<Item>, ids: seq<Id>, seen: Seen) {
    && (forall i :: 0 <= i < |emitted| ==> emitted[i].attempts <= SeenAt(seen, emitted[i].id))
    && (forall i, j :: 0 <= i < j < |emitted| && emitted[i].id == emitted[j].id ==>
        emitted[i].attempts < emitted[j].attempts)
    && (forall id :: id in seen ==> Item(id, seen[id]) in emitted)
    && |emitted| <= Spent(ids, seen)
  }

  lemma TrailOne(emitted: seq<Item>, ids: seq<Id>, seen: Seen, id: Id, a: nat)
    requires Trail(emitted, ids, seen) && id in ids && a > SeenAt(seen, id)
    ensures Trail(emitted + [Item(id, a)], ids, seen[id := a])
  {
    SpentBump(ids, seen, id, a);
    assert Item(id, a) in emitted + [Item(id, a)];
  }

  /** A pass extends the history. */
  lemma {:induction false} FetchTrail(emitted: seq<Item>, all: seq<Id>, ids: seq<Id>, t: Table, now: int, o: Options,
                                      filter: (Id, TaskRow) -> bool, seen: Seen)
    requires Trail(emitted, all, seen) && forall id :: id in ids ==> id in all
    ensures var (batch, seen') := Fetch(ids, t, now, o, filter, seen); Trail(emitted + batch, all, seen')
  {
    if ids == [] {
      assert emitted + [] == emitted;
    } else {
      FetchTrail(emitted, all, Front(ids), t, now, o, filter, seen);
      var (batch, seen') := Fetch(Front(ids), t, now, o, filter, seen);
      var id := Last(ids);
      assert id in ids;
      if InQueue(t, id, now, o, filter) && t[id].attempts > SeenAt(seen', id) {
        TrailOne(emitted + batch, all, seen', id, t[id].attempts);
        Assoc(emitted, batch, [Item(id, t[id].attempts)]);
      }
    }
  }

  /** A pass leaves every row of the queue seen, emits only rows of the queue, and
      an empty pass changes nothing. */
  lemma {:induction false} FetchSees(ids: seq<Id>, t: Table, now: int, o: Options, filter: (Id, TaskRow) -> bool,
                                     seen: Seen)
    ensures var (batch, seen') := Fetch(ids, t, now, o, filter, seen);
            && (forall id :: SeenAt(seen', id) >= SeenAt(seen, id))
            && (forall id :: id in ids && InQueue(t, id, now, o, filter) ==> SeenAt(seen', id) >= t[id].attempts)
            && (forall id :: id in seen' && id !in seen ==> Emits(batch, id))
            && (forall item :: item in batch ==>
                InQueue(t, item.id, now, o, filter) && item.attempts == t[item.id].attempts)
            && (batch == [] ==> seen' == seen)
  {
    if ids != [] {
      FetchSees(Front(ids), t, now, o, filter, seen);
      var (batch, seen') := Fetch(Front(ids), t, now, o, filter, seen);
      var (batch2, seen2) := Fetch(ids, t, now, o, filter, seen);
      assert forall id :: id in ids ==> id in Front(ids) || id == Last(ids);
      if batch2 != batch {
        var item := Item(Last(ids), t[Last(ids)].attempts);
        assert batch2 == batch + [item];
        EmitsMore(batch, item);
      }
    }
  }

  ghost predicate Emits(batch: seq<Item>, id: Id) {
    exists i :: 0 <= i < |batch| && batch[i].id == id
  }

  lemma EmitsMore(batch: seq<Item>, item: Item)
    ensures forall id :: Emits(batch, id) ==> Emits(batch + [item], id)
    ensures Emits(batch + [item], item.id)
  {
    forall id | Emits(batch, id) ensures Emits(batch + [item], id) {
      var i :| 0 <= i < |batch| && batch[i].id == id;
      assert (batch + [item])[i].id == id;
    }
    assert (batch + [item])[|batch|].id == item.id;
  }

  ghost predicate AttemptsWithin(t: Table, cap: nat) {
    forall id :: id in t ==> t[id].attempts <= cap
  }

  lemma {:induction false} FetchWithin(ids: seq<Id>, t: Table, now: int, o: Options, filter: (Id, TaskRow) -> bool,
                                       seen: Seen, cap: nat)
    requires AttemptsWithin(t, cap) && SeenWithin(seen, cap)
    ensures SeenWithin(Fetch(ids, t, now, o, filter, seen).1, cap)
  {
    if ids != [] {
      FetchWithin(Front(ids), t, now, o, filter, seen, cap);
    }
  }

  // ---- Planning ---------------------------------------------------------------------------

  /** What the factory's iterator yields: a task, or anything that stops planning. */
  datatype Yield = Task(id: Id, payload: string) | Broken

  type Items = map<Id, string>

  /** Every yield is a task, with a non-empty id of its own. */
  ghost predicate Plannable(list: seq<Yield>) {
    && (forall i :: 0 <= i < |list| ==> list[i].Task? && list[i].id != "")
    && (forall i, j :: 0 <= i < j < |list| && list[i].Task? && list[j].Task? ==> list[i].id != list[j].id)
  }

  ghost predicate ItemsOf(items: Items, list: seq<Yield>) {
    && (forall i :: 0 <= i < |list| && list[i].Task? ==> list[i].id in items && items[list[i].id] == list[i].payload)
    && (forall id :: id in items ==> Yields(list, id))
  }

  ghost predicate Yields(list: seq<Yield>, id: Id) {
    exists i :: 0 <= i < |list| && list[i].Task? && list[i].id == id
  }

  function Seed(tasks: Table, items: Items): Table {
    map id | id in tasks.Keys + items.Keys :: if id in tasks then tasks[id] else SEEDED
  }

  lemma ItemsMore(items: Items, list: seq<Yield>, i: nat)
    requires i < |list| && list[i].Task? && ItemsOf(items, list[..i]) && list[i].id !in items
    ensures ItemsOf(items[list[i].id := list[i].payload], list[..i + 1])
  {
    var items' := items[list[i].id := list[i].payload];
    assert list[..i + 1] == list[..i] + [list[i]];
    forall id | id in items' ensures Yields(list[..i + 1], id) {
      if id == list[i].id {
        assert list[..i + 1][i].id == id;
      } else {
        assert Yields(list[..i], id);
        var k :| 0 <= k < i && list[..i][k].Task? && list[..i][k].id == id;
        assert list[..i + 1][k].id == id;
      }
    }
  }

  lemma PlannableMore(list: seq<Yield>, items: Items, i: nat)
    requires i < |list| && Plannable(list[..i]) && ItemsOf(items, list[..i])
    ensures list[i].Task? && list[i].id != "" && list[i].id !in items ==> Plannable(list[..i + 1])
    ensures !(list[i].Task? && list[i].id != "" && list[i].id !in items) ==> !Plannable(list)
  {
    assert list[..i + 1] == list[..i] + [list[i]];
    if list[i].Task? && list[i].id in items {
      assert Yields(list[..i], list[i].id);
      var k :| 0 <= k < i && list[..i][k].Task? && list[..i][k].id == list[i].id;
      assert list[k].id == list[i].id;
    }
  }

  /** A plan that goes through has one item for each yield, with its payload, and none
      without an id. */
  lemma {:induction false} PlanExactly(items: Items, list: seq<Yield>)
    requires Plannable(list) && ItemsOf(items, list)
    ensures |items| == |list| && "" !in items
    ensures forall i :: 0 <= i < |list| ==> list[i].Task? && list[i].id in items && items[list[i].id] == list[i].payload
  {
    assert items.Keys == set i | 0 <= i < |list| :: list[i].id by {
      forall id | id in items ensures exists i :: 0 <= i < |list| && list[i].id == id {
        assert Yields(list, id);
      }
    }
    IdsCounted(list);
  }

  lemma {:induction false} IdsCounted(list: seq<Yield>)
    requires Plannable(list)
    ensures |set i | 0 <= i < |list| :: list[i].id| == |list|
  {
    if list != [] {
      var front := list[..|list| - 1];
      IdsCounted(front);
      var before, ids := set i | 0 <= i < |front| :: front[i].id, set i | 0 <= i < |list| :: list[i].id;
      assert ids == before + {list[|list| - 1].id};
      assert list[|list| - 1].id !in before;
    }
  }

  // ---- Summaries ------------------------------------------------------------------------------

  datatype Summary = Summary(pending: nat, running: nat, done: nat, failed: nat)

  function CountStatus(ids: seq<Id>, t: Table, status: Status): nat {
    if ids == [] then 0
    else CountStatus(Front(ids), t, status) + (if Last(ids) in t && t[Last(ids)].status == status then 1 else 0)
  }

  ghost predicate AllDone(t: Table) {
    forall id :: id in t ==> t[id].status.Done?
  }

  lemma {:induction false} CountsAddUp(ids: seq<Id>, t: Table)
    requires forall id :: id in ids ==> id in t
    ensures CountStatus(ids, t, Pending) + CountStatus(ids, t, Running) + CountStatus(ids, t, Done) + CountStatus(ids,
        t, Failed) == |ids|
  {
    if ids != [] {
      assert Last(ids) in ids;
      CountsAddUp(Front(ids), t);
    }
  }

  lemma {:induction false} CountZero(ids: seq<Id>, t: Table, status: Status)
    ensures CountStatus(ids, t, status) == 0 <==> forall id :: id in ids && id in t ==> t[id].status != status
  {
    if ids != [] {
      CountZero(Front(ids), t, status);
      assert forall id :: id in ids <==> id in Front(ids) || id == Last(ids);
    }
  }

  /** The counts of a table, taken over any listing of its ids. */
  ghost predicate Summarizes(s: Summary, t: Table, ids: seq<Id>) {
    && s.pending == CountStatus(ids, t, Pending) && s.running == CountStatus(ids, t, Running)
    && s.done == CountStatus(ids, t, Done) && s.failed == CountStatus(ids, t, Failed)
  }

  function WithStatus(t: Table, status: Status): set<Id> {
    set id | id in t && t[id].status == status
  }

  lemma LastIsNew(ids: seq<Id>)
    requires Ascending(ids) && ids != []
    ensures Elements(ids) == Elements(Front(ids)) + {Last(ids)} && Last(ids) !in Elements(Front(ids))
  {
    var front, last := Front(ids), Last(ids);
    forall i | 0 <= i < |front| ensures front[i] != last {
      LessTotal(ids[i], ids[|ids| - 1]);
    }
    ElementsHas(front, last);
    assert ids == front + [last];
    forall id ensures id in Elements(ids) <==> id in Elements(front) || id == last {
      ElementsHas(ids, id);
      ElementsHas(front, id);
    }
  }

  lemma OneMoreElement(a: set<Id>, x: Id, b: set<Id>)
    requires x !in a
    ensures |(a + {x}) * b| == |a * b| + (if x in b then 1 else 0)
  {
    assert (a + {x}) * b == a * b + (if x in b then {x} else {});
  }

  lemma {:induction false} CountIsSize(ids: seq<Id>, t: Table, status: Status)
    requires Ascending(ids)
    ensures CountStatus(ids, t, status) == |Elements(ids) * WithStatus(t, status)|
  {
    if ids == [] {
      assert Elements(ids) == {};
    } else {
      CountIsSize(Front(ids), t, status);
      LastIsNew(ids);
      OneMoreElement(Elements(Front(ids)), Last(ids), WithStatus(t, status));
    }
  }

  /** A summary has the number of rows of each status, accounts for every row, and shows
      nothing unfinished exactly when every row is done. */
  lemma SummaryTells(s: Summary, t: Table, ids: seq<Id>)
    requires Lists(ids, t.Keys) && Summarizes(s, t, ids)
    ensures s.pending == |WithStatus(t, Pending)| && s.running == |WithStatus(t, Running)|
    ensures s.done == |WithStatus(t, Done)| && s.failed == |WithStatus(t, Failed)|
    ensures s.pending + s.running + s.done + s.failed == |ids|
    ensures s.pending == 0 && s.running == 0 && s.failed == 0 <==> AllDone(t)
  {
    forall id ensures id in ids <==> id in t {
      ElementsHas(ids, id);
    }
    CountsAddUp(ids, t);
    forall status ensures CountStatus(ids, t, status) == |WithStatus(t, status)| {
      CountIsSize(ids, t, status);
      assert Elements(ids) * WithStatus(t, status) == WithStatus(t, status);
    }
    CountZero(ids, t, Pending);
    CountZero(ids, t, Running);
    CountZero(ids, t, Failed);
    CountZero(ids, t, Done);
  }

  // ---- The runner object -----------------------------------------------------------------------

  /** What the select of each pass sees. */
  datatype Snapshot = Snapshot(tasks: Table, now: int)

  class Runner {
    var items: Items
    var tasks: Table
    var closed: bool
    var summary: Summary
    var archivedPath: Option<string>
    const dbPath: string

    constructor (dbPath: string)
      ensures this.dbPath == dbPath && items == map[] && tasks == map[] && !closed && archivedPath == None
    {
      this.dbPath := dbPath;
      items, tasks, closed, summary, archivedPath := map[], map[], false, Summary(0, 0, 0, 0), None;
    }

    /** Insert everything the factory lists and seed the task rows, or nothing. A new
        row is pending and was never attempted; an old one stays as it is. */
    method RunPlan(list: seq<Yield>) returns (ok: bool)
      requires items == map[]
      modifies this`items, this`tasks
      ensures ok <==> Plannable(list)
      ensures ok ==> ItemsOf(items, list) && tasks.Keys == old(tasks).Keys + items.Keys
      ensures forall id :: id in tasks ==>
        tasks[id] == if id in old(tasks) then old(tasks)[id] else TaskRow(Pending, 0, None, None)
      ensures !ok ==> items == map[] && tasks == old(tasks)
    {
      var inserted: Items := map[];
      var ids: set<Id> := {};
      for i := 0 to |list|
        invariant items == map[] && tasks == old(tasks)
        invariant ids == inserted.Keys
        invariant Plannable(list[..i]) && ItemsOf(inserted, list[..i])
      {
        PlannableMore(list, inserted, i);
        if !list[i].Task? || list[i].id == "" || list[i].id in ids {
          return false;
        }
        ItemsMore(inserted, list, i);
        ids := ids + {list[i].id};
        inserted := inserted[list[i].id := list[i].payload];
      }
      assert list[..|list|] == list;
      items := inserted;
      tasks := Seed(tasks, items);
      return true;
    }

    method Claim(id: Id, now: int, o: Options) returns (claimed: bool)
      modifies this`tasks
      ensures claimed <==> Claimable(old(tasks), id, now, o)
      ensures tasks == ClaimIn(old(tasks), id, now, o)
    {
      if id !in tasks || !Eligible(tasks[id], now, o) {
        return false;
      }
      tasks := tasks[id := Claimed(tasks[id], now)];
      return true;
    }

    method Beat(id: Id, now: int)
      modifies this`tasks
      ensures tasks == BeatIn(old(tasks), id, now)
    {
      if id in tasks {
        tasks := tasks[id := tasks[id].(heartbeat := Some(now))];
      }
    }

    method WriteTerminal(id: Id, ok: bool, result: Option<string>, now: int)
      modifies this`tasks
      ensures tasks == EndIn(old(tasks), id, ok, result, now)
    {
      if id in tasks {
        var row := tasks[id];
        if ok {
          tasks := tasks[id := row.(status := Done, heartbeat := Some(now), result := if result.Some? then result
                                    else row.result)];
        } else {
          tasks := tasks[id := row.(status := Failed, heartbeat := Some(now))];
        }
      }
    }

    /** One select: the rows that pass the (id, attempts) dedup. */
    method FetchBatch(ids: seq<Id>, at: Snapshot, o: Options, filter: (Id, TaskRow) -> bool, seen: Seen)
        returns (batch: seq<Item>, seen': Seen)
      ensures (batch, seen') == Fetch(ids, at.tasks, at.now, o, filter, seen)
    {
      batch, seen' := [], seen;
      for i := 0 to |ids|
        invariant (batch, seen') == Fetch(ids[..i], at.tasks, at.now, o, filter, seen)
      {
        var id := ids[i];
        assert Front(ids[..i + 1]) == ids[..i] && Last(ids[..i + 1]) == id;
        if InQueue(at.tasks, id, at.now, o, filter) {
          var attempts := at.tasks[id].attempts;
          if !(id in seen' && attempts <= seen'[id]) {
            seen' := seen'[id := attempts];
            batch := batch + [Item(id, attempts)];
          }
        }
      }
      assert ids[..|ids|] == ids;
    }

    /** Pass after pass until one finds nothing new. With attempts bounded by cap,
        it stops after at most |ids| * (cap + 1) emissions, whatever the workers do
        between passes; no (id, attempts) is emitted twice; whatever is emitted was
        in the queue at some pass; and every row in the queue at the last pass has
        been emitted with the attempts it has there, or more. */
    method FeedQueue(ids: seq<Id>, passes: nat -> Snapshot, o: Options, filter: (Id, TaskRow) -> bool, ghost cap: nat)
        returns (emitted: seq<Item>, k: nat, seen: Seen)
      requires forall n :: AttemptsWithin(passes(n).tasks, cap)
      ensures Trail(emitted, ids, seen) && SeenWithin(seen, cap) && |emitted| <= |ids| * (cap + 1)
      ensures forall id :: id in ids && InQueue(passes(k).tasks, id, passes(k).now, o, filter) ==>
        id in seen && seen[id] >= passes(k).tasks[id].attempts && Item(id, seen[id]) in emitted
      ensures forall item :: item in emitted ==> QueuedBy(item, passes, k, o, filter)
    {
      emitted, k, seen := [], 0, map[];
      SpentWithin(ids, seen, cap);
      assert Trail(emitted, ids, seen);
      while true
        invariant Trail(emitted, ids, seen) && SeenWithin(seen, cap) && Spent(ids, seen) <= |ids| * (cap + 1)
        invariant forall item :: item in emitted ==> k > 0 && QueuedBy(item, passes, k - 1, o, filter)
        decreases |ids| * (cap + 1) - Spent(ids, seen)
      {
        FetchTrail(emitted, ids, ids, passes(k).tasks, passes(k).now, o, filter, seen);
        FetchSees(ids, passes(k).tasks, passes(k).now, o, filter, seen);
        FetchWithin(ids, passes(k).tasks, passes(k).now, o, filter, seen, cap);
        FetchSpends(ids, ids, passes(k).tasks, passes(k).now, o, filter, seen);
        var batch;
        batch, seen := FetchBatch(ids, passes(k), o, filter, seen);
        SpentWithin(ids, seen, cap);
        QueuedLater(emitted, batch, passes, k, o, filter);
        emitted := emitted + batch;
        if |batch| == 0 {
          return;
        }
        k := k + 1;
      }
    }

    method CaptureSummary() returns (ghost ids: seq<Id>)
      modifies this`summary
      ensures Lists(ids, tasks.Keys) && Summarizes(summary, tasks, ids)
    {
      var list := SortedListing(tasks.Keys);
      ids := list;
      var s := Summary(0, 0, 0, 0);
      for i := 0 to |list|
        invariant Summarizes(s, tasks, list[..i])
      {
        assert Front(list[..i + 1]) == list[..i] && Last(list[..i + 1]) == list[i];
        ElementsHas(list, list[i]);
        match tasks[list[i]].status
        case Pending => s := s.(pending := s.pending + 1);
        case Running => s := s.(running := s.running + 1);
        case Done => s := s.(done := s.done + 1);
        case Failed => s := s.(failed := s.failed + 1);
      }
      assert list[..|list|] == list;
      summary := s;
    }

    method QueueDrained() returns (drained: bool)
      ensures drained <==> AllDone(tasks)
    {
      var todo := tasks.Keys;
      var n := 0;
      while todo != {}
        invariant todo <= tasks.Keys
        invariant n == 0 <==> forall id :: id in tasks && id !in todo ==> tasks[id].status.Done?
        invariant n >= 0
        decreases todo
      {
        var id :| id in todo;
        if !tasks[id].status.Done? {
          n := n + 1;
        }
        todo := todo - {id};
      }
      return n == 0;
    }

    method Close()
      modifies this`closed
      ensures closed
    {
      if !closed {
        closed := true;
      }
    }

    /** Move the database away, exactly when nothing is left to do and it is a file
        that is still in place. */
    method ArchiveIfDrained(o: Options, inPlace: bool, destination: string)
      modifies this`closed, this`archivedPath
      ensures archivedPath == if !o.keepDb && dbPath != "" && AllDone(tasks) && inPlace then Some(destination)
        else old(archivedPath)
      ensures closed == (old(closed) || (!o.keepDb && dbPath != "" && AllDone(tasks)))
    {
      if o.keepDb {
        return;
      }
      if dbPath == "" {
        return;
      }
      var drained := QueueDrained();
      if !drained {
        return;
      }
      Close();
      if !inPlace {
        return;
      }
      archivedPath := Some(destination);
    }
  }

  /** The row was in the queue, with these attempts, at some pass up to k. */
  ghost predicate QueuedBy(item: Item, passes: nat -> Snapshot, k: nat, o: Options, filter: (Id, TaskRow) -> bool) {
    exists n: nat :: n <= k && QueuedIn(item, passes(n), o, filter)
  }

  predicate QueuedIn(item: Item, at: Snapshot, o: Options, filter: (Id, TaskRow) -> bool) {
    InQueue(at.tasks, item.id, at.now, o, filter) && at.tasks[item.id].attempts == item.attempts
  }

  lemma QueuedLater(emitted: seq<Item>, batch: seq<Item>, passes: nat -> Snapshot, k: nat, o: Options,
                    filter: (Id, TaskRow) -> bool)
    requires forall item :: item in emitted ==> k > 0 && QueuedBy(item, passes, k - 1, o, filter)
    requires forall item :: item in batch ==> QueuedIn(item, passes(k), o, filter)
    ensures forall item :: item in emitted + batch ==> QueuedBy(item, passes, k, o, filter)
  {
    forall item | item in emitted + batch ensures QueuedBy(item, passes, k, o, filter) {
      if item in batch {
        assert QueuedIn(item, passes(k), o, filter);
      } else {
        var n: nat :| n <= k - 1 && QueuedIn(item, passes(n), o, filter);
        assert n <= k;
      }
    }
  }

  /** Every emission of a pass uses up budget. */
  lemma {:induction false} FetchSpends(all: seq<Id>, ids: seq<Id>, t: Table, now: int, o: Options,
                                       filter: (Id, TaskRow) -> bool, seen: Seen)
    requires forall id :: id in ids ==> id in all
    ensures var (batch, seen') := Fetch(ids, t, now, o, filter, seen); Spent(all, seen') >= Spent(all, seen) + |batch|
  {
    if ids != [] {
      FetchSpends(all, Front(ids), t, now, o, filter, seen);
      var (batch, seen') := Fetch(Front(ids), t, now, o, filter, seen);
      var id := Last(ids);
      assert id in ids;
      if InQueue(t, id, now, o, filter) && t[id].attempts > SeenAt(seen', id) {
        SpentBump(all, seen', id, t[id].attempts);
      }
    }
  }
}
