/** The order of Go strings, and sorting by it. */
module Order {
  import opened Types

  predicate Less(a: string, b: string) {
    if b == [] then false
    else if a == [] then true
    else if a[0] != b[0] then a[0] < b[0]
    else Less(a[1..], b[1..])
  }

  lemma {:induction false} LessTransitive(a: string, b: string, c: string)
    requires Less(a, b) && Less(b, c)
    ensures Less(a, c)
  {
    if a != [] && a[0] == b[0] && b[0] == c[0] {
      LessTransitive(a[1..], b[1..], c[1..]);
    }
  }

  lemma {:induction false} LessTotal(a: string, b: string)
    ensures Less(a, b) || Less(b, a) || a == b
    ensures !(Less(a, b) && Less(b, a)) && (a == b ==> !Less(a, b))
  {
    if a != [] && b != [] && a[0] == b[0] {
      LessTotal(a[1..], b[1..]);
      if a[1..] == b[1..] {
        assert a == [a[0]] + a[1..] && b == [b[0]] + b[1..];
      }
    }
  }

  /** The order of strings: the first difference decides, and a proper prefix comes
      first. */
  lemma {:induction false} LessExactly(a: string, b: string)
    ensures Less(a, b) <==>
            || (|a| < |b| && b[..|a|] == a)
            || (exists i :: 0 <= i < |a| && i < |b| && FirstDifference(a, b, i) && a[i] < b[i])
  {
    if a != [] && b != [] {
      if a[0] != b[0] {
        assert FirstDifference(a, b, 0);
      } else {
        LessExactly(a[1..], b[1..]);
        PrefixTail(a, b);
        forall i | 0 < i < |a| && i < |b| ensures FirstDifference(a, b, i) <==> FirstDifference(a[1..], b[1..], i - 1) {
          DifferenceTail(a, b, i);
        }
        if i :| 0 <= i < |a| - 1 && i < |b| - 1 && FirstDifference(a[1..], b[1..], i) && a[1..][i] < b[1..][i] {
          assert FirstDifference(a, b, i + 1);
        }
      }
    }
  }

  /** The strings agree before i and differ there. */
  ghost predicate FirstDifference(a: string, b: string, i: nat)
    requires i < |a| && i < |b|
  {
    (forall k :: 0 <= k < i ==> a[k] == b[k]) && a[i] != b[i]
  }

  lemma DifferenceTail(a: string, b: string, i: nat)
    requires 0 < i < |a| && i < |b| && a[0] == b[0]
    ensures FirstDifference(a, b, i) <==> FirstDifference(a[1..], b[1..], i - 1)
  {
    if FirstDifference(a[1..], b[1..], i - 1) {
      forall k | 0 <= k < i ensures a[k] == b[k] {
        assert k > 0 ==> a[1..][k - 1] == b[1..][k - 1];
      }
    }
  }

  lemma PrefixTail(a: string, b: string)
    requires a != [] && b != [] && a[0] == b[0]
    ensures |a| < |b| && b[..|a|] == a <==> |a[1..]| < |b[1..]| && b[1..][..|a[1..]|] == a[1..]
  {
    if |a| < |b| {
      assert b[1..][..|a| - 1] == b[..|a|][1..];
      assert b[..|a|] == [b[0]] + b[..|a|][1..] && a == [a[0]] + a[1..];
    }
  }

  ghost predicate Ascending(paths: seq<string>) {
    forall i, j :: 0 <= i < j < |paths| ==> Less(paths[i], paths[j])
  }

  function Elements<T>(s: seq<T>): set<T> {
    set x | x in s
  }

  /** paths lists exactly the given set, in ascending order. */
  ghost predicate Lists(paths: seq<string>, s: set<string>) {
    Ascending(paths) && Elements(paths) == s
  }

  lemma ElementsNonEmpty<T>(s: seq<T>)
    ensures s != [] ==> s[0] in Elements(s)
  {}

  lemma ElementsHas<T>(s: seq<T>, x: T)
    ensures x in Elements(s) <==> x in s
  {}

  /** One ascending listing of a set is as good as any other. */
  lemma {:induction false} ListsUnique(a: seq<string>, b: seq<string>, s: set<string>)
    requires Lists(a, s) && Lists(b, s)
    ensures a == b
  {
    if a == [] {
      ElementsNonEmpty(b);
    } else {
      assert a[0] in Elements(b);
      assert b[0] in Elements(a);
      var i :| 0 <= i < |b| && b[i] == a[0];
      var j :| 0 <= j < |a| && a[j] == b[0];
      LessTotal(a[0], b[0]);
      assert a[0] == b[0];
      ListsTail(a, s);
      ListsTail(b, s);
      ListsUnique(a[1..], b[1..], s - {a[0]});
    }
  }

  lemma ListsTail(a: seq<string>, s: set<string>)
    requires Lists(a, s) && a != []
    ensures Lists(a[1..], s - {a[0]})
  {
    forall x ensures x in Elements(a[1..]) <==> x in s - {a[0]} {
      if x in s && x != a[0] {
        assert x in Elements(a);
        var i :| 0 <= i < |a| && a[i] == x;
        assert a[1..][i - 1] == x;
      }
      if x in a[1..] {
        var i :| 0 <= i < |a[1..]| && a[1..][i] == x;
        assert a[i + 1] == x;
        assert x in Elements(a);
        LessTotal(a[0], x);
      }
    }
  }

  /** Where x belongs in an ascending list. */
  method Position(paths: seq<string>, x: string) returns (k: nat)
    requires Ascending(paths) && x !in paths
    ensures k <= |paths|
    ensures forall i :: 0 <= i < k ==> Less(paths[i], x)
    ensures forall i :: k <= i < |paths| ==> Less(x, paths[i])
  {
    k := 0;
    while k < |paths| && Less(paths[k], x)
      invariant 0 <= k <= |paths|
      invariant forall i :: 0 <= i < k ==> Less(paths[i], x)
    {
      k := k + 1;
    }
    if k < |paths| {
      LessTotal(paths[k], x);
      forall i | k <= i < |paths| ensures Less(x, paths[i]) {
        if k < i {
          LessTransitive(x, paths[k], paths[i]);
        }
      }
    }
  }

  lemma Inserted(paths: seq<string>, x: string, k: nat, s: set<string>)
    requires Lists(paths, s) && k <= |paths|
    requires forall i :: 0 <= i < k ==> Less(paths[i], x)
    requires forall i :: k <= i < |paths| ==> Less(x, paths[i])
    ensures Lists(paths[..k] + [x] + paths[k..], s + {x})
  {
    var r := paths[..k] + [x] + paths[k..];
    assert forall i :: 0 <= i < |r| ==> r[i] == if i < k then paths[i] else if i == k then x else paths[i - 1];
    forall y ensures y in Elements(r) <==> y in s + {x} {
      if y in s {
        assert y in Elements(paths);
        assert y in paths[..k] || y in paths[k..];
      }
      if y in r && y != x {
        assert y in paths;
        assert y in Elements(paths);
      }
    }
  }

  /** Sorting the keys of a map. */
  method SortedListing(s: set<string>) returns (paths: seq<string>)
    ensures Lists(paths, s)
  {
    paths := [];
    var todo := s;
    while todo != {}
      invariant todo <= s && Lists(paths, s - todo)
      decreases todo
    {
      var x :| x in todo;
      ElementsHas(paths, x);
      var k := Position(paths, x);
      Inserted(paths, x, k, s - todo);
      paths := paths[..k] + [x] + paths[k..];
      assert s - (todo - {x}) == (s - todo) + {x};
      todo := todo - {x};
    }
    assert s - todo == s;
  }
}
