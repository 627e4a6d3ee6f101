/** The subscription handler of the replication machine is the server's (server.go). */
module Handler {
  import opened Types
  import opened ChangeLog
  import opened Sync
  import opened Replication

  function SendAll(log: Log, k: Conn): Conn
    decreases if k.phase.Backfilling? then |k.phase.rest| else 0
  {
    if k.phase.Backfilling? && k.phase.rest != [] then SendAll(log, HandlerNext(log, k, SendBackfill)) else k
  }

  function TakeAll(log: Log, k: Conn): Conn
    decreases |k.queue|
  {
    if k.phase.Live? && k.queue != [] then TakeAll(log, HandlerNext(log, k, TakeLive)) else k
  }

  lemma {:induction false} SendAllSends(log: Log, k: Conn)
    ensures var k' := SendAll(log, k);
            k.phase.Backfilling? ==>
            && k'.phase == Backfilling([]) && k'.sent == k.sent + k.phase.rest && k'.queue == k.queue
            && k'.lastVersion == (if k.phase.rest == [] then k.lastVersion else Last(k.phase.rest).version)
            && (k.wire == Events(k.sent) ==> k'.wire == Events(k'.sent))
    decreases if k.phase.Backfilling? then |k.phase.rest| else 0
  {
    if !k.phase.Backfilling? {
    } else if k.phase.rest == [] {
      assert k.sent + [] == k.sent;
    } else {
      var e := k.phase.rest[0];
      var k1 := HandlerNext(log, k, SendBackfill);
      EventsSnoc(k.sent, e);
      SendAllSends(log, k1);
      assert k.phase.rest == [e] + k.phase.rest[1..];
      Assoc(k.sent, [e], k.phase.rest[1..]);
    }
  }

  lemma {:induction false} FreshCons(e: ChangeEntry, rest: Log, last: int)
    ensures Fresh([e] + rest, last) == (if e.version > last then [e] else []) + Fresh(rest, last)
  {
    if rest == [] {
      assert [e] + rest == [e] && Front([e]) == [];
      assert Fresh([e], last) == Fresh([], last) + (if e.version > last then [e] else []);
    } else {
      assert Front([e] + rest) == [e] + Front(rest) && Last([e] + rest) == Last(rest);
      FreshCons(e, Front(rest), last);
      Assoc(if e.version > last then [e]
            else [], Fresh(Front(rest), last), if Last(rest).version > last then [Last(rest)] else []);
    }
  }

  lemma {:induction false} TakeAllSends(log: Log, k: Conn)
    ensures var k' := TakeAll(log, k);
            k.phase.Live? ==>
            && k'.queue == [] && k'.sent == k.sent + Fresh(k.queue, k.lastVersion)
            && (k.wire == Events(k.sent) ==> k'.wire == Events(k'.sent))
    decreases |k.queue|
  {
    if !k.phase.Live? {
    } else if k.queue == [] {
      assert k.sent + [] == k.sent;
    } else {
      var e := k.queue[0];
      var k1 := HandlerNext(log, k, TakeLive);
      EventsSnoc(k.sent, e);
      TakeAllSends(log, k1);
      FreshCons(e, k.queue[1..], k.lastVersion);
      assert k.queue == [e] + k.queue[1..];
      Assoc(k.sent, if e.version > k.lastVersion then [e] else [], Fresh(k.queue[1..], k.lastVersion));
    }
  }

  /** The handler's steps in this machine, run to the end on some log and some
      channel contents, write exactly what Sync.HandleSubscribe writes. */
  lemma {:induction false} HandlerIsServer(log: Log, since: nat, announced: nat, received: Log)
    ensures var k1 := HandlerNext(log, NewConn(since, announced), Query);
            var k2 := HandlerNext(log, SendAll(log, k1), GoLive);
            var k3 := TakeAll(log, k2.(queue := received));
            var backfill := Since(log, since);
            var last := if backfill == [] then since else Last(backfill).version;
            k3.wire == Events(backfill + Fresh(received, last))
  {
    var k1 := HandlerNext(log, NewConn(since, announced), Query);
    SendAllSends(log, k1);
    var k2 := HandlerNext(log, SendAll(log, k1), GoLive);
    TakeAllSends(log, k2.(queue := received));
    assert [] + Since(log, since) == Since(log, since);
  }
}
