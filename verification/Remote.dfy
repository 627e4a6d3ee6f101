/** Remote keys and the in-memory object store (archive/key.go, archive/fake.go). */
module Remote {
  import opened Types
  import opened Order

  // ---- Keys ---------------------------------------------------------------------

  function TrimPrefix(s: string, prefix: string): string {
    if HasPrefix(s, prefix) then s[|prefix|..] else s
  }

  function TrimSuffix(s: string, suffix: string): string {
    if HasSuffix(s, suffix) then s[..|s| - |suffix|] else s
  }

  function JoinKey(prefix: string, rel: string): string {
    var r := TrimPrefix(rel, "/");
    if prefix == "" then r else TrimSuffix(prefix, "/") + "/" + r
  }

  /** A path relative to the hub directory. */
  predicate Relative(p: Path) {
    p != "" && p[0] != '/'
  }

  /** The prefix every key carries. */
  function Root(prefix: string): string {
    if prefix == "" then "" else TrimSuffix(prefix, "/") + "/"
  }

  lemma KeyOfRelative(prefix: string, p: Path)
    requires Relative(p)
    ensures JoinKey(prefix, p) == Root(prefix) + p
  {
    assert p[..1][0] == p[0];
    assert TrimPrefix(p, "/") == p;
  }

  /** Different paths have different keys. */
  lemma KeyInjective(prefix: string, p: Path, q: Path)
    requires Relative(p) && Relative(q) && JoinKey(prefix, p) == JoinKey(prefix, q)
    ensures p == q
  {
    KeyOfRelative(prefix, p);
    KeyOfRelative(prefix, q);
    var root := Root(prefix);
    assert (root + p)[|root|..] == p && (root + q)[|root|..] == q;
  }

  // ---- Versions --------------------------------------------------------------------

  datatype RemoteInfo = RemoteInfo(fileId: FileId, key: string, size: nat, digest: Digest, digestAlgo: string)

  datatype Version = Version(info: RemoteInfo, data: Bytes)

  /** All versions of each key, oldest first. */
  type Versions = map<string, seq<Version>>

  datatype Bucket = Bucket(versions: Versions, counter: nat)

  function History(b: Bucket, key: string): seq<Version> {
    if key in b.versions then b.versions[key] else []
  }

  function HeadVersion(b: Bucket, key: string): Option<Version> {
    var vs := History(b, key);
    if vs == [] then None else Some(vs[|vs| - 1])
  }

  function Head(b: Bucket, key: string): Option<RemoteInfo> {
    match HeadVersion(b, key)
    case None => None
    case Some(v) => Some(v.info)
  }

  function NewVersion(b: Bucket, key: string, data: Bytes, digest: Digest, algo: string): Version {
    Version(RemoteInfo(b.counter + 1, key, |data|, digest, algo), data)
  }

  function UploadTo(b: Bucket, key: string, data: Bytes, digest: Digest, algo: string): Bucket {
    Bucket(b.versions[key := History(b, key) + [NewVersion(b, key, data, digest, algo)]], b.counter + 1)
  }

  lemma UploadBecomesHead(b: Bucket, key: string, data: Bytes, digest: Digest, algo: string, other: string)
    ensures var b' := UploadTo(b, key, data, digest, algo);
            && HeadVersion(b', key) == Some(NewVersion(b, key, data, digest, algo))
            && |History(b', key)| == |History(b, key)| + 1
            && (other != key ==> History(b', other) == History(b, other))
  {}

  /** Infos name their own key and carry an id that was handed out. */
  ghost predicate WellFormed(b: Bucket) {
    forall k, i :: k in b.versions && 0 <= i < |b.versions[k]| ==>
      b.versions[k][i].info.key == k && 0 < b.versions[k][i].info.fileId <= b.counter
  }

  lemma UploadWellFormed(b: Bucket, key: string, data: Bytes, digest: Digest, algo: string)
    requires WellFormed(b)
    ensures WellFormed(UploadTo(b, key, data, digest, algo))
  {
    var b' := UploadTo(b, key, data, digest, algo);
    forall k, i | k in b'.versions && 0 <= i < |b'.versions[k]|
      ensures b'.versions[k][i].info.key == k && 0 < b'.versions[k][i].info.fileId <= b'.counter
    {
      if k != key || i < |History(b, key)| {
        assert b'.versions[k][i] == b.versions[k][i];
      }
    }
  }

  lemma RemoveWellFormed(b: Bucket, gone: set<string>)
    requires WellFormed(b)
    ensures WellFormed(b.(versions := b.versions - gone))
  {}

  // ---- Listing -------------------------------------------------------------------------

  type Heads = map<string, RemoteInfo>

  /** What a lister sees: the head of every key that has one. */
  function HeadsOf(b: Bucket): Heads {
    map k | k in b.versions && b.versions[k] != [] :: b.versions[k][|b.versions[k]| - 1].info
  }

  function IndexOfSlash(s: string): (index: Option<nat>)
    ensures index.Some? ==> index.value < |s|
  {
    if s == "" then None
    else if s[0] == '/' then Some(0)
    else match IndexOfSlash(s[1..])
         case None => None
         case Some(i) => Some(i + 1)
  }

  lemma {:induction false} FirstSlash(s: string)
    ensures match IndexOfSlash(s)
            case None => forall j :: 0 <= j < |s| ==> s[j] != '/'
            case Some(i) => i < |s| && s[i] == '/' && forall j :: 0 <= j < i ==> s[j] != '/'
  {
    if s != "" && s[0] != '/' {
      FirstSlash(s[1..]);
      match IndexOfSlash(s[1..])
      case None =>
        forall j | 0 <= j < |s| ensures s[j] != '/' {
          if j > 0 {
            assert s[j] == s[1..][j - 1];
          }
        }
      case Some(i) =>
        assert s[i + 1] == s[1..][i];
        forall j | 0 <= j < i + 1 ensures s[j] != '/' {
          if j > 0 {
            assert s[j] == s[1..][j - 1];
          }
        }
    }
  }

  /** The common prefix a key below prefix is folded into, if any. */
  function Marker(prefix: string, key: string): Option<string>
    requires HasPrefix(key, prefix)
  {
    match IndexOfSlash(key[|prefix|..])
    case None => None
    case Some(i) => Some(key[..|prefix| + i + 1])
  }

  /** The key of the entry that stands for key in a listing. */
  function Listed(prefix: string, delimited: bool, key: string): string
    requires HasPrefix(key, prefix)
  {
    if delimited && Marker(prefix, key).Some? then Marker(prefix, key).value else key
  }

  lemma MarkerShape(prefix: string, key: string)
    requires HasPrefix(key, prefix)
    ensures match Marker(prefix, key)
            case None => forall j :: |prefix| <= j < |key| ==> key[j] != '/'
            case Some(m) =>
              && HasPrefix(key, m) && HasPrefix(m, prefix) && |prefix| < |m|
              && m[|m| - 1] == '/' && forall j :: |prefix| <= j < |m| - 1 ==> key[j] != '/'
  {
    var tail := key[|prefix|..];
    FirstSlash(tail);
    match IndexOfSlash(tail)
    case None =>
      forall j | |prefix| <= j < |key| ensures key[j] != '/' {
        assert key[j] == tail[j - |prefix|];
      }
    case Some(i) =>
      var m := key[..|prefix| + i + 1];
      assert m[..|prefix|] == key[..|prefix|];
      assert key[|prefix| + i] == tail[i];
      forall j | |prefix| <= j < |m| - 1 ensures key[j] != '/' {
        assert key[j] == tail[j - |prefix|];
      }
  }

  /** A marker is determined by its shape. */
  lemma MarkerIs(prefix: string, key: string, m: string)
    requires HasPrefix(key, prefix) && HasPrefix(key, m) && |prefix| < |m|
    requires m[|m| - 1] == '/' && forall j :: |prefix| <= j < |m| - 1 ==> key[j] != '/'
    ensures Marker(prefix, key) == Some(m)
  {
    MarkerShape(prefix, key);
    assert key[|m| - 1] == m[|m| - 1];
    var n := Marker(prefix, key).value;
    assert key[|n| - 1] == n[|n| - 1] == '/';
    assert |n| == |m|;
  }

  /** Every key below a marker is folded into that marker. */
  lemma BelowMarker(prefix: string, key: string, other: string)
    requires HasPrefix(key, prefix) && Marker(prefix, key).Some?
    requires HasPrefix(other, Marker(prefix, key).value)
    ensures HasPrefix(other, prefix) && Marker(prefix, other) == Marker(prefix, key)
  {
    MarkerShape(prefix, key);
    var m := Marker(prefix, key).value;
    assert other[..|prefix|] == m[..|prefix|];
    forall j | |prefix| <= j < |m| - 1 ensures other[j] != '/' {
      assert other[j] == m[j] == key[j];
    }
    MarkerIs(prefix, other, m);
  }

  function MarkerInfo(m: string): RemoteInfo {
    RemoteInfo(0, m, 0, [], "")
  }

  function EntryOf(heads: Heads, prefix: string, delimited: bool, key: string): RemoteInfo
    requires key in heads && HasPrefix(key, prefix)
  {
    if delimited && Marker(prefix, key).Some? then MarkerInfo(Marker(prefix, key).value) else heads[key]
  }

  /** The entry stands for this key. */
  ghost predicate Stands(e: RemoteInfo, heads: Heads, prefix: string, delimited: bool, k: string) {
    k in heads && HasPrefix(k, prefix) && e == EntryOf(heads, prefix, delimited, k)
  }

  ghost predicate Shows(entries: seq<RemoteInfo>, key: string) {
    exists i :: 0 <= i < |entries| && entries[i].key == key
  }

  ghost predicate NoDuplicates(entries: seq<RemoteInfo>) {
    forall i, j :: 0 <= i < j < |entries| ==> entries[i].key != entries[j].key
  }

  /** Each of the given keys below prefix is listed, by itself or by its marker;
      nothing else is listed, and nothing twice. */
  ghost predicate ListsKeys(entries: seq<RemoteInfo>, heads: Heads, prefix: string, delimited: bool,
                            keys: set<string>) {
    && NoDuplicates(entries)
    && (forall e :: e in entries ==> exists k :: k in keys && Stands(e, heads, prefix, delimited, k))
    && (forall k :: k in keys && HasPrefix(k, prefix) ==> Shows(entries, Listed(prefix, delimited, k)))
  }

  ghost predicate IsListing(entries: seq<RemoteInfo>, heads: Heads, prefix: string, delimited: bool) {
    ListsKeys(entries, heads, prefix, delimited, heads.Keys)
  }

  ghost predicate OwnKeys(heads: Heads) {
    forall k :: k in heads ==> heads[k].key == k && heads[k].fileId != 0
  }

  /** A well-formed bucket is listed under its own keys, by ids it handed out. */
  lemma WellFormedOwns(b: Bucket)
    requires WellFormed(b)
    ensures OwnKeys(HeadsOf(b)) && forall k :: k in HeadsOf(b) ==> 0 < HeadsOf(b)[k].fileId <= b.counter
  {}

  lemma ListingSound(entries: seq<RemoteInfo>, heads: Heads, prefix: string, delimited: bool,
                     i: nat) returns (k: string)
    requires IsListing(entries, heads, prefix, delimited) && OwnKeys(heads) && i < |entries|
    ensures Stands(entries[i], heads, prefix, delimited, k)
    ensures entries[i].key == Listed(prefix, delimited, k)
    ensures entries[i].fileId == 0 <==> delimited && Marker(prefix, k).Some?
  {
    assert entries[i] in entries;
    k :| k in heads.Keys && Stands(entries[i], heads, prefix, delimited, k);
  }

  // ---- The store object --------------------------------------------------------------------

  class Storage {
    var versions: Versions
    var counter: nat
    /** Keys whose deletion the service refuses; the in-memory store has none. */
    var stuck: set<string>

    constructor ()
      ensures Value() == Bucket(map[], 0) && stuck == {}
    {
      versions, counter, stuck := map[], 0, {};
    }

    ghost function Value(): Bucket
      reads this
    {
      Bucket(versions, counter)
    }

    method Upload(key: string, data: Bytes, digest: Digest, algo: string) returns (info: RemoteInfo)
      modifies this`versions, this`counter
      ensures Value() == UploadTo(old(Value()), key, data, digest, algo)
      ensures Head(Value(), key) == Some(info)
      ensures info == NewVersion(old(Value()), key, data, digest, algo).info
    {
      counter := counter + 1;
      info := RemoteInfo(counter, key, |data|, digest, algo);
      var before := if key in versions then versions[key] else [];
      versions := versions[key := before + [Version(info, data)]];
    }

    method HeadByKey(key: string) returns (head: Option<RemoteInfo>)
      ensures head == Head(Value(), key)
    {
      if key !in versions || |versions[key]| == 0 {
        return None;
      }
      return Some(versions[key][|versions[key]| - 1].info);
    }

    method Download(key: string) returns (data: Option<Bytes>)
      ensures data == match HeadVersion(Value(), key)
                      case None => None
                      case Some(v) => Some(v.data)
    {
      if key !in versions || |versions[key]| == 0 {
        return None;
      }
      return Some(versions[key][|versions[key]| - 1].data);
    }

    /** Remove a key if its head still is the wanted version; a missing key is fine. */
    method DeleteByKey(key: string, want: FileId) returns (ok: bool)
      modifies this`versions
      ensures ok <==> Head(old(Value()), key).None?
                      || ((want == 0 || Head(old(Value()), key).value.fileId == want) && key !in stuck)
      ensures HeadsOf(Value()) == if ok then HeadsOf(old(Value())) - {key} else HeadsOf(old(Value()))
      ensures versions == if ok && Head(old(Value()), key).Some? then old(versions) - {key} else old(versions)
    {
      if key !in versions || |versions[key]| == 0 {
        return true;
      }
      var head := versions[key][|versions[key]| - 1].info;
      if want != 0 && head.fileId != want {
        return false;
      }
      if key in stuck {
        return false;
      }
      versions := versions - {key};
      return true;
    }

    method LiveKeys() returns (keys: set<string>)
      ensures keys == HeadsOf(Value()).Keys
    {
      keys := {};
      var todo := versions.Keys;
      while todo != {}
        invariant todo <= versions.Keys
        invariant keys == set k | k in versions && k !in todo && versions[k] != []
        decreases todo
      {
        var k :| k in todo;
        if |versions[k]| > 0 {
          keys := keys + {k};
        }
        todo := todo - {k};
      }
    }

    method ListKeys(prefix: string, delimited: bool) returns (entries: seq<RemoteInfo>)
      requires OwnKeys(HeadsOf(Value()))
      ensures IsListing(entries, HeadsOf(Value()), prefix, delimited)
      ensures Ascending(KeyList(entries))
    {
      ghost var heads := HeadsOf(Value());
      var live := LiveKeys();
      var keys := SortedListing(live);
      entries := [];
      var seenPrefix: set<string> := {};
      for i := 0 to |keys|
        invariant ListsKeys(entries, heads, prefix, delimited, Elements(keys[..i])) && Ascending(KeyList(entries))
        invariant forall m :: m in seenPrefix <==> MarkerInfo(m) in entries
      {
        var k := keys[i];
        NextKey(keys, i);
        assert k in heads.Keys;
        if HasPrefix(k, prefix) {
          var m := if delimited then Marker(prefix, k) else None;
          if m.Some? && m.value in seenPrefix {
            ListAgain(entries, heads, prefix, delimited, Elements(keys[..i]), k);
          } else {
            var e := if m.Some? then MarkerInfo(m.value) else versions[k][|versions[k]| - 1].info;
            ListNew(entries, heads, prefix, delimited, keys, i);
            entries := entries + [e];
            if m.Some? {
              seenPrefix := seenPrefix + {m.value};
            }
          }
        } else {
          ListSkip(entries, heads, prefix, delimited, Elements(keys[..i]), k);
        }
      }
      assert keys[..|keys|] == keys;
    }
  }

  function KeyList(entries: seq<RemoteInfo>): seq<string> {
    seq(|entries|, i requires 0 <= i < |entries| => entries[i].key)
  }

  lemma PrefixCons(s: string, m: string)
    requires s != [] && m != [] && s[0] == m[0]
    ensures HasPrefix(s, m) <==> HasPrefix(s[1..], m[1..])
  {
    if HasPrefix(s, m) {
      assert s[1..][..|m| - 1] == s[..|m|][1..];
    }
    if HasPrefix(s[1..], m[1..]) {
      assert s[..|m|] == [s[0]] + s[1..][..|m| - 1];
    }
  }

  lemma PrefixTrans(a: string, b: string, c: string)
    requires HasPrefix(a, b)
    ensures HasPrefix(b, c) ==> HasPrefix(a, c)
  {
    if HasPrefix(b, c) {
      assert a[..|c|] == a[..|b|][..|c|];
    }
  }

  lemma PrefixHead(s: string, m: string)
    requires HasPrefix(s, m) && m != []
    ensures s != [] && s[0] == m[0]
  {
    assert s[..|m|][0] == s[0];
  }

  /** What comes before b, but not below a prefix of b, comes before that prefix. */
  lemma {:induction false} LessThanPrefix(a: string, b: string, m: string)
    requires Less(a, b) && HasPrefix(b, m) && !HasPrefix(a, m)
    ensures Less(a, m)
    decreases |m|
  {
    PrefixHead(b, m);
    if a != [] && a[0] == m[0] {
      PrefixCons(a, m);
      PrefixCons(b, m);
      LessThanPrefix(a[1..], b[1..], m[1..]);
    }
  }

  /** A prefix of a comes before whatever comes after a and is not below it. */
  lemma {:induction false} PrefixLessThan(a: string, b: string, m: string)
    requires Less(a, b) && HasPrefix(a, m) && !HasPrefix(b, m)
    ensures Less(m, b)
    decreases |m|
  {
    if m != [] {
      PrefixHead(a, m);
      if b[0] == m[0] {
        PrefixCons(a, m);
        PrefixCons(b, m);
        PrefixLessThan(a[1..], b[1..], m[1..]);
      }
    }
  }

  /** The key's own name, or its marker if it has one. */
  lemma ListedShape(prefix: string, delimited: bool, k: string)
    requires HasPrefix(k, prefix)
    ensures var l := Listed(prefix, delimited, k);
            HasPrefix(k, l) && HasPrefix(l, prefix) && (l == k || (delimited && Marker(prefix, k) == Some(l)))
  {
    MarkerShape(prefix, k);
  }

  /** What stands for an earlier key comes before what stands for a later one. */
  lemma ListedAscends(prefix: string, delimited: bool, a: string, b: string)
    requires HasPrefix(a, prefix) && HasPrefix(b, prefix) && Less(a, b)
    requires Listed(prefix, delimited, a) != Listed(prefix, delimited, b)
    ensures Less(Listed(prefix, delimited, a), Listed(prefix, delimited, b))
  {
    var la, lb := Listed(prefix, delimited, a), Listed(prefix, delimited, b);
    ListedShape(prefix, delimited, a);
    ListedShape(prefix, delimited, b);
    NotBelow(prefix, delimited, a, b);
    NotBelow(prefix, delimited, b, a);
    if la != a {
      PrefixLessThan(a, b, la);
    }
    if lb != b {
      PrefixTrans(a, la, lb);
      LessThanPrefix(la, b, lb);
    }
  }

  /** A key with another entry does not lie below this one's marker. */
  lemma NotBelow(prefix: string, delimited: bool, a: string, b: string)
    requires HasPrefix(a, prefix) && HasPrefix(b, prefix)
    requires Listed(prefix, delimited, a) != Listed(prefix, delimited, b)
    ensures Listed(prefix, delimited, a) != a ==> !HasPrefix(b, Listed(prefix, delimited, a))
  {
    if Listed(prefix, delimited, a) != a && HasPrefix(b, Listed(prefix, delimited, a)) {
      BelowMarker(prefix, a, b);
    }
  }

  lemma AppendAscends(entries: seq<RemoteInfo>, heads: Heads, prefix: string, delimited: bool, keys: seq<string>,
                      i: nat)
    requires Ascending(keys) && i < |keys| && keys[i] in heads && OwnKeys(heads) && HasPrefix(keys[i], prefix)
    requires ListsKeys(entries, heads, prefix, delimited, Elements(keys[..i])) && Ascending(KeyList(entries))
    requires ListsKeys(entries + [EntryOf(heads, prefix, delimited, keys[i])], heads, prefix, delimited,
                       Elements(keys[..i + 1]))
    ensures Ascending(KeyList(entries + [EntryOf(heads, prefix, delimited, keys[i])]))
  {
    var e := EntryOf(heads, prefix, delimited, keys[i]);
    var entries' := entries + [e];
    forall j | 0 <= j < |entries| ensures Less(KeyList(entries)[j], e.key) {
      assert entries[j] in entries && entries'[j] == entries[j] && entries'[|entries|] == e;
      var x :| x in Elements(keys[..i]) && Stands(entries[j], heads, prefix, delimited, x);
      var n :| 0 <= n < i && keys[n] == x;
      assert entries'[j].key != entries'[|entries|].key;
      ListedAscends(prefix, delimited, x, keys[i]);
    }
    forall j, l | 0 <= j < l < |entries'| ensures Less(KeyList(entries')[j], KeyList(entries')[l]) {
      if l < |entries| {
        assert Less(KeyList(entries)[j], KeyList(entries)[l]);
      } else {
        assert Less(KeyList(entries)[j], e.key);
      }
    }
  }

  lemma NextKey(keys: seq<string>, i: nat)
    requires Ascending(keys) && i < |keys|
    ensures keys[i] !in Elements(keys[..i])
    ensures Elements(keys[..i + 1]) == Elements(keys[..i]) + {keys[i]}
    ensures keys[i] in Elements(keys)
  {
    forall j | 0 <= j < i ensures keys[j] != keys[i] {
      LessTotal(keys[j], keys[i]);
    }
    assert keys[..i + 1] == keys[..i] + [keys[i]];
  }

  lemma ListSkip(entries: seq<RemoteInfo>, heads: Heads, prefix: string, delimited: bool, keys: set<string>, k: string)
    requires ListsKeys(entries, heads, prefix, delimited, keys) && !HasPrefix(k, prefix)
    ensures ListsKeys(entries, heads, prefix, delimited, keys + {k})
  {
    forall e | e in entries ensures exists x :: x in keys + {k} && Stands(e, heads, prefix, delimited, x) {
      var x :| x in keys && Stands(e, heads, prefix, delimited, x);
      assert x in keys + {k};
    }
  }

  lemma ListAgain(entries: seq<RemoteInfo>, heads: Heads, prefix: string, delimited: bool, keys: set<string>, k: string)
    requires ListsKeys(entries, heads, prefix, delimited, keys) && HasPrefix(k, prefix)
    requires delimited && Marker(prefix, k).Some? && MarkerInfo(Marker(prefix, k).value) in entries
    ensures ListsKeys(entries, heads, prefix, delimited, keys + {k})
  {
    forall e | e in entries ensures exists x :: x in keys + {k} && Stands(e, heads, prefix, delimited, x) {
      var x :| x in keys && Stands(e, heads, prefix, delimited, x);
      assert x in keys + {k};
    }
    var i :| 0 <= i < |entries| && entries[i] == MarkerInfo(Marker(prefix, k).value);
    assert Shows(entries, Listed(prefix, delimited, k));
  }

  /** The next key's entry, in the order of the keys. */
  lemma ListNew(entries: seq<RemoteInfo>, heads: Heads, prefix: string, delimited: bool, keys: seq<string>, i: nat)
    requires Ascending(keys) && i < |keys| && keys[i] in heads && OwnKeys(heads) && HasPrefix(keys[i], prefix)
    requires ListsKeys(entries, heads, prefix, delimited, Elements(keys[..i])) && Ascending(KeyList(entries))
    requires delimited && Marker(prefix, keys[i]).Some? ==> MarkerInfo(Marker(prefix, keys[i]).value) !in entries
    ensures var entries' := entries + [EntryOf(heads, prefix, delimited, keys[i])];
            && ListsKeys(entries', heads, prefix, delimited, Elements(keys[..i + 1]))
            && Ascending(KeyList(entries'))
  {
    NextKey(keys, i);
    ListOne(entries, heads, prefix, delimited, Elements(keys[..i]), keys[i]);
    AppendAscends(entries, heads, prefix, delimited, keys, i);
  }

  /** A key whose entry is not there yet: by its own name, or as the first of its marker. */
  lemma ListOne(entries: seq<RemoteInfo>, heads: Heads, prefix: string, delimited: bool, keys: set<string>, k: string)
    requires ListsKeys(entries, heads, prefix, delimited, keys) && OwnKeys(heads)
    requires k in heads && k !in keys && HasPrefix(k, prefix)
    requires delimited && Marker(prefix, k).Some? ==> MarkerInfo(Marker(prefix, k).value) !in entries
    ensures ListsKeys(entries + [EntryOf(heads, prefix, delimited, k)], heads, prefix, delimited, keys + {k})
  {
    var e := EntryOf(heads, prefix, delimited, k);
    var entries' := entries + [e];
    forall x | x in entries ensures x.key != e.key {
      var kx :| kx in keys && Stands(x, heads, prefix, delimited, kx);
      ListedApart(heads, prefix, delimited, kx, k);
    }
    forall x | x in entries' ensures exists y :: y in keys + {k} && Stands(x, heads, prefix, delimited, y) {
      if x in entries {
        var y :| y in keys && Stands(x, heads, prefix, delimited, y);
        assert y in keys + {k};
      } else {
        assert k in keys + {k} && Stands(x, heads, prefix, delimited, k);
      }
    }
    ShowsMore(entries, e);
    assert e.key == Listed(prefix, delimited, k);
  }

  lemma ShowsMore(entries: seq<RemoteInfo>, e: RemoteInfo)
    ensures forall key :: Shows(entries, key) ==> Shows(entries + [e], key)
    ensures Shows(entries + [e], e.key)
  {
    var entries' := entries + [e];
    forall key | Shows(entries, key) ensures Shows(entries', key) {
      var i :| 0 <= i < |entries| && entries[i].key == key;
      assert entries'[i].key == key;
    }
    assert entries'[|entries|].key == e.key;
  }

  /** Two keys share an entry's key only if they share a marker. */
  lemma ListedApart(heads: Heads, prefix: string, delimited: bool, a: string, b: string)
    requires a in heads && b in heads && a != b && OwnKeys(heads)
    requires HasPrefix(a, prefix) && HasPrefix(b, prefix)
    ensures EntryOf(heads, prefix, delimited, a).key == EntryOf(heads, prefix, delimited, b).key ==>
      && delimited && Marker(prefix, a).Some? && Marker(prefix, b) == Marker(prefix, a)
  {
    MarkerShape(prefix, a);
    MarkerShape(prefix, b);
  }
}
