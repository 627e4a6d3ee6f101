/** The two ends of the sync stream: broadcaster and subscription handler on the
    hub, hub_tree store and event application on the client. */
module Sync {
  import opened Types
  import opened ChangeLog
  import HubStore

  // ---- Events on the wire ---------------------------------------------------

  /** A stream message; a change does not say whether it creates or updates. */
  datatype SyncEvent =
    | Change(version: nat, path: Path, meta: Meta)
    | Deletion(version: nat, path: Path)

  function ToEvent(e: ChangeEntry): SyncEvent {
    if e.op.Delete? then Deletion(e.version, e.path) else Change(e.version, e.path, e.meta)
  }

  function Events(log: Log): (events: seq<SyncEvent>)
    ensures |events| == |log|
  {
    seq(|log|, i requires 0 <= i < |log| => ToEvent(log[i]))
  }

  lemma EventAt(log: Log, i: nat)
    requires i < |log|
    ensures Events(log)[i] == ToEvent(log[i])
  {}

  function ApplyEvent(tree: Tree, ev: SyncEvent): Tree {
    match ev
    case Change(version, path, meta) => tree[path := Row(meta, version)]
    case Deletion(version, path) => tree - {path}
  }

  /** What the client does with an event is what the hub did with the record. */
  lemma EventFaithful(tree: Tree, e: ChangeEntry)
    ensures ApplyEvent(tree, ToEvent(e)) == ApplyRecord(tree, e)
    ensures ToEvent(e).version == e.version
  {}

  // ---- Client -----------------------------------------------------------------

  class ClientStore {
    var tree: Tree
    var hubVersion: nat

    constructor ()
      ensures tree == map[] && hubVersion == 0
    {
      tree, hubVersion := map[], 0;
    }

    method UpsertEntry(path: Path, meta: Meta, version: nat)
      modifies this`tree
      ensures tree == old(tree)[path := Row(meta, version)]
    {
      tree := tree[path := Row(meta, version)];
    }

    method SetHubVersion(version: nat)
      modifies this`hubVersion
      ensures hubVersion == version
    {
      hubVersion := version;
    }

    /** One transaction: the row and the cursor move together. */
    method ApplyChange(version: nat, path: Path, op: Op, meta: Meta)
      modifies this
      ensures tree == ApplyRecord(old(tree), ChangeEntry(version, path, op, meta))
      ensures hubVersion == version
    {
      if op.Delete? {
        tree := tree - {path};
      } else {
        tree := tree[path := Row(meta, version)];
      }
      hubVersion := version;
    }

    /** applyEvent on the metadata side. */
    method ApplyEventMessage(ev: SyncEvent)
      modifies this
      ensures tree == ApplyEvent(old(tree), ev) && hubVersion == ev.version
    {
      match ev
      case Change(version, path, meta) => ApplyChange(version, path, Create, meta);
      case Deletion(version, path) => ApplyChange(version, path, Delete, Meta(File, [], 0, 0, 0));
    }

    /** syncOnce: without a connection nothing happens; with one, messages are
        applied until the stream ends or a message's file cannot be written, and
        the n messages before that leave the tree and the cursor of their records. */
    method SyncOnce(connected: bool, stream: seq<SyncEvent>, applies: nat -> bool, ghost records: Log) returns (n: nat)
      requires stream == Events(records)
      modifies this
      ensures n <= |records|
      ensures !connected ==> n == 0
      ensures connected && n < |records| ==> !applies(n)
      ensures forall i :: 0 <= i < n ==> applies(i)
      ensures tree == Replay(old(tree), records[..n])
      ensures hubVersion == if n == 0 then old(hubVersion) else records[n - 1].version
    {
      n := 0;
      if !connected {
        return;
      }
      while n < |stream|
        invariant n <= |stream|
        invariant forall i :: 0 <= i < n ==> applies(i)
        invariant tree == Replay(old(tree), records[..n])
        invariant hubVersion == if n == 0 then old(hubVersion) else records[n - 1].version
      {
        if !applies(n) {
          return;
        }
        EventAt(records, n);
        ApplyEventMessage(stream[n]);
        EventFaithful(Replay(old(tree), records[..n]), records[n]);
        assert records[..n + 1] == records[..n] + [records[n]];
        ReplaySnoc(old(tree), records[..n], records[n]);
        n := n + 1;
      }
    }
  }

  // ---- Broadcaster --------------------------------------------------------------

  const CHANNEL_SLOTS: nat := 256

  /** Sending to a buffered channel without blocking. */
  function Offer(queue: Log, e: ChangeEntry): Log {
    if |queue| < CHANNEL_SLOTS then queue + [e] else queue
  }

  /** A channel holds 256 entries; an offer is taken at the end or not at all. */
  lemma OfferExactly(queue: Log, e: ChangeEntry)
    ensures |queue| < 256 ==> Offer(queue, e) == queue + [e]
    ensures |queue| >= 256 ==> Offer(queue, e) == queue
  {}

  class Channel {
    var queue: Log
    var closed: bool

    constructor ()
      ensures queue == [] && !closed
    {
      queue, closed := [], false;
    }
  }

  class Broadcaster {
    var subs: set<Channel>

    constructor ()
      ensures subs == {}
    {
      subs := {};
    }

    method Subscribe() returns (ch: Channel)
      modifies this
      ensures fresh(ch) && ch.queue == [] && !ch.closed
      ensures subs == old(subs) + {ch}
    {
      ch := new Channel();
      subs := subs + {ch};
    }

    method Unsubscribe(ch: Channel)
      modifies this, ch`closed
      ensures subs == old(subs) - {ch} && ch.closed
    {
      subs := subs - {ch};
      ch.closed := true;
    }

    /** Every current subscriber is offered the entry; a full buffer drops it. */
    method Broadcast(entry: ChangeEntry)
      modifies subs
      ensures forall ch :: ch in subs ==> ch.queue == Offer(old(ch.queue), entry) && ch.closed == old(ch.closed)
    {
      var todo := subs;
      while todo != {}
        invariant todo <= subs
        invariant forall ch :: ch in subs - todo ==> ch.queue == Offer(old(ch.queue), entry)
        invariant forall ch :: ch in todo ==> ch.queue == old(ch.queue)
        invariant forall ch :: ch in subs ==> ch.closed == old(ch.closed)
        decreases todo
      {
        var ch :| ch in todo;
        if |ch.queue| < CHANNEL_SLOTS {
          ch.queue := ch.queue + [entry];
        }
        todo := todo - {ch};
      }
    }
  }

  // ---- Subscription handler -------------------------------------------------------

  /** The live entries that get past the dedup against the backfill. */
  function Fresh(received: Log, lastVersion: int): Log {
    if received == [] then []
    else Fresh(Front(received), lastVersion) + (if Last(received).version > lastVersion then [Last(received)] else [])
  }

  lemma EventsConcat(a: Log, b: Log)
    ensures Events(a + b) == Events(a) + Events(b)
  {}

  lemma EventsSnoc(log: Log, e: ChangeEntry)
    ensures Events(log + [e]) == Events(log) + [ToEvent(e)]
  {}

  method WriteBackfill(entries: Log, since: int) returns (written: seq<SyncEvent>, lastVersion: int)
    ensures written == Events(entries)
    ensures lastVersion == if entries == [] then since else Last(entries).version
  {
    lastVersion := since;
    written := [];
    for i := 0 to |entries|
      invariant written == Events(entries[..i])
      invariant lastVersion == if i == 0 then since else entries[i - 1].version
    {
      EventsSnoc(entries[..i], entries[i]);
      assert entries[..i + 1] == entries[..i] + [entries[i]];
      written := written + [ToEvent(entries[i])];
      lastVersion := entries[i].version;
    }
    assert entries[..|entries|] == entries;
  }

  method StreamLive(received: Log, lastVersion: int) returns (written: seq<SyncEvent>)
    ensures written == Events(Fresh(received, lastVersion))
  {
    written := [];
    for i := 0 to |received|
      invariant written == Events(Fresh(received[..i], lastVersion))
    {
      assert Front(received[..i + 1]) == received[..i];
      if received[i].version > lastVersion {
        EventsSnoc(Fresh(received[..i], lastVersion), received[i]);
        written := written + [ToEvent(received[i])];
      } else {
        assert Fresh(received[..i + 1], lastVersion) == Fresh(received[..i], lastVersion);
      }
    }
    assert received[..|received|] == received;
  }

  /** handleSubscribe for one connection: backfill everything above since, then
      forward what the channel yields until the request ends. The cursor moves
      during the backfill only. */
  method HandleSubscribe(store: HubStore.Store, since: int, received: Log) returns (written: seq<SyncEvent>)
    ensures var backfill := Since(store.log, since);
            var last := if backfill == [] then since else Last(backfill).version;
            written == Events(backfill + Fresh(received, last))
  {
    var entries := store.ChangesSince(since);
    var backfilled, lastVersion := WriteBackfill(entries, since);
    var live := StreamLive(received, lastVersion);
    EventsConcat(entries, Fresh(received, lastVersion));
    written := backfilled + live;
  }

  // ---- Snapshot ----------------------------------------------------------------------

  /** Every row carries the version in the request, not its own. */
  function Labelled(tree: map<Path, Meta>, version: nat): Tree {
    map p | p in tree :: Row(tree[p], version)
  }

  lemma LabelledExactly(tree: map<Path, Meta>, version: nat, p: Path)
    ensures p in Labelled(tree, version) <==> p in tree
    ensures p in tree ==> Labelled(tree, version)[p] == Row(tree[p], version)
  {}

  method GenerateClientDB(store: HubStore.Store, version: nat) returns (client: ClientStore)
    ensures fresh(client)
    ensures client.tree == map p | p in store.entries :: Row(store.entries[p].meta, version)
    ensures client.hubVersion == version
  {
    client := new ClientStore();
    var tree := store.TreeSnapshot();
    var todo := tree.Keys;
    while todo != {}
      invariant todo <= tree.Keys
      invariant client.tree == map p | p in tree && p !in todo :: Row(tree[p], version)
      decreases todo
    {
      var p :| p in todo;
      client.UpsertEntry(p, tree[p], version);
      todo := todo - {p};
    }
    client.SetHubVersion(version);
  }
}
