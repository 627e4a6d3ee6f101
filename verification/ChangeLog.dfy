/** The append-only change log and the tree it determines. */
module ChangeLog {
  import opened Types

  datatype Op = Create | Update | Delete

  datatype Kind = File | Directory | Symlink

  /** The scanner's columns of one path. */
  datatype Meta = Meta(kind: Kind, digest: Digest, size: int, mode: int, mtime: int)

  datatype ChangeEntry = ChangeEntry(version: nat, path: Path, op: Op, meta: Meta)

  datatype Row = Row(meta: Meta, version: nat)

  type Tree = map<Path, Row>

  type Log = seq<ChangeEntry>

  /** Versions are the positions in the log, counted from 1. */
  ghost predicate Dense(log: Log) {
    forall i :: 0 <= i < |log| ==> log[i].version == i + 1
  }

  function ApplyRecord(tree: Tree, e: ChangeEntry): Tree {
    if e.op.Delete? then tree - {e.path} else tree[e.path := Row(e.meta, e.version)]
  }

  function Last<T>(s: seq<T>): T
    requires s != []
  {
    s[|s| - 1]
  }

  function Front<T>(s: seq<T>): seq<T>
    requires s != []
  {
    s[..|s| - 1]
  }

  /** The tree after replaying a stretch of log on top of a tree. */
  function Replay(tree: Tree, log: Log): Tree {
    if log == [] then tree else ApplyRecord(Replay(tree, Front(log)), Last(log))
  }

  function Fold(log: Log): Tree {
    Replay(map[], log)
  }

  lemma ReplaySnoc(tree: Tree, log: Log, e: ChangeEntry)
    ensures Replay(tree, log + [e]) == ApplyRecord(Replay(tree, log), e)
  {
    assert Front(log + [e]) == log;
  }

  lemma {:induction false} ReplayConcat(tree: Tree, a: Log, b: Log)
    ensures Replay(tree, a + b) == Replay(Replay(tree, a), b)
  {
    if b == [] {
      assert a + b == a;
    } else {
      assert Front(a + b) == a + Front(b);
      ReplayConcat(tree, a, Front(b));
    }
  }

  /** The last record of a path. */
  function LastFor(log: Log, p: Path): Option<ChangeEntry> {
    if log == [] then None
    else if Last(log).path == p then Some(Last(log))
    else LastFor(Front(log), p)
  }

  /** Replaying decides each path by its last record alone. */
  lemma {:induction false} ReplayAt(tree: Tree, log: Log, p: Path)
    ensures match LastFor(log, p)
            case None => (p in Replay(tree, log) <==> p in tree) && (p in tree ==> Replay(tree, log)[p] == tree[p])
            case Some(e) =>
              && (p in Replay(tree, log) <==> !e.op.Delete?)
              && (!e.op.Delete? ==> Replay(tree, log)[p] == Row(e.meta, e.version))
  {
    if log != [] && Last(log).path != p {
      ReplayAt(tree, Front(log), p);
    }
  }

  lemma {:induction false} LastForIn(log: Log, p: Path)
    ensures LastFor(log, p).Some? ==>
      exists i :: 0 <= i < |log| && log[i] == LastFor(log, p).value && log[i].path == p
        && forall j :: i < j < |log| ==> log[j].path != p
    ensures LastFor(log, p).None? ==> forall i :: 0 <= i < |log| ==> log[i].path != p
  {
    if log != [] && Last(log).path != p {
      LastForIn(Front(log), p);
      if LastFor(log, p).Some? {
        var i :| 0 <= i < |Front(log)| && Front(log)[i] == LastFor(log, p).value && Front(log)[i].path == p
          && forall j :: i < j < |Front(log)| ==> Front(log)[j].path != p;
        forall j | i < j < |log| ensures log[j].path != p {
          if j < |log| - 1 {
            assert Front(log)[j].path != p;
          }
        }
        assert log[i] == LastFor(log, p).value;
      } else {
        forall i | 0 <= i < |log| ensures log[i].path != p {
          if i < |log| - 1 {
            assert Front(log)[i].path != p;
          }
        }
      }
    }
  }

  lemma {:induction false} LastForConcat(a: Log, b: Log, p: Path)
    ensures LastFor(a + b, p) == if LastFor(b, p).Some? then LastFor(b, p) else LastFor(a, p)
  {
    if b == [] {
      assert a + b == a;
    } else {
      assert Front(a + b) == a + Front(b);
      LastForConcat(a, Front(b), p);
    }
  }

  function Max(a: nat, b: nat): nat { if a < b then b else a }

  /** The greatest version of a non-delete record of p, or 0. */
  function MaxVersion(log: Log, p: Path): nat {
    if log == [] then 0
    else if Last(log).path == p && !Last(log).op.Delete? then Max(Last(log).version, MaxVersion(Front(log), p))
    else MaxVersion(Front(log), p)
  }

  lemma {:induction false} MaxVersionIsMax(log: Log, p: Path)
    ensures forall i :: 0 <= i < |log| && log[i].path == p && !log[i].op.Delete? ==>
      log[i].version <= MaxVersion(log, p)
    ensures MaxVersion(log, p) > 0 ==>
      exists i :: 0 <= i < |log| && log[i].path == p && !log[i].op.Delete? && log[i].version == MaxVersion(log, p)
  {
    if log != [] {
      var front := Front(log);
      MaxVersionIsMax(front, p);
      forall i | 0 <= i < |log| && log[i].path == p && !log[i].op.Delete?
        ensures log[i].version <= MaxVersion(log, p)
      {
        if i < |log| - 1 {
          assert front[i] == log[i];
        }
      }
      if MaxVersion(log, p) > 0 {
        if MaxVersion(log, p) == MaxVersion(front, p) {
          var i :| 0 <= i < |front| && front[i].path == p && !front[i].op.Delete?
            && front[i].version == MaxVersion(front, p);
          assert log[i] == front[i];
        } else {
          assert log[|log| - 1].version == MaxVersion(log, p);
        }
      }
    }
  }

  /** For a live path the two notions of current version agree. */
  lemma {:induction false} LiveVersion(log: Log, p: Path)
    requires Dense(log) && p in Fold(log)
    ensures Fold(log)[p].version == MaxVersion(log, p)
    ensures 0 < MaxVersion(log, p) <= |log|
    ensures var b := MaxVersion(log, p);
            && log[b - 1].path == p && !log[b - 1].op.Delete? && log[b - 1].meta == Fold(log)[p].meta
            && forall j :: b <= j < |log| ==> log[j].path != p
  {
    var front := Front(log);
    MaxVersionIsMax(front, p);
    if Last(log).path == p {
      if MaxVersion(front, p) > 0 {
        var i :| 0 <= i < |front| && front[i].path == p && front[i].version == MaxVersion(front, p);
        assert log[i] == front[i];
      }
    } else {
      assert forall i :: 0 <= i < |front| ==> front[i] == log[i];
      LiveVersion(front, p);
      assert front[MaxVersion(log, p) - 1] == log[MaxVersion(log, p) - 1];
      forall j | MaxVersion(log, p) <= j < |log| ensures log[j].path != p {
        if j < |log| - 1 {
          assert front[j].path != p;
        }
      }
    }
  }

  /** The records above a version, in log order. */
  function Since(log: Log, since: int): Log {
    if log == [] then []
    else Since(Front(log), since) + (if Last(log).version > since then [Last(log)] else [])
  }

  function Clamp(v: int, n: nat): nat { if v < 0 then 0 else if v > n then n else v }

  lemma {:induction false} SinceIsSuffix(log: Log, since: int)
    requires Dense(log)
    ensures Since(log, since) == log[Clamp(since, |log|)..]
  {
    if log != [] {
      var front, n := Front(log), |log| - 1;
      assert forall i :: 0 <= i < n ==> front[i] == log[i];
      SinceIsSuffix(front, since);
      assert Last(log).version == |log|;
      if Last(log).version > since {
        SuffixSnoc(front, Last(log), Clamp(since, n));
        assert front + [Last(log)] == log;
      } else {
        assert front[n..] == [] && log[|log|..] == [];
      }
    }
  }

  lemma SuffixSnoc<T>(s: seq<T>, e: T, k: nat)
    requires k <= |s|
    ensures (s + [e])[k..] == s[k..] + [e]
  {}
}
