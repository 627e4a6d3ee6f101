/** The writing client's scan and its handling of push responses (client_push.go). */
module Conflicts {
  import opened Types
  import opened ChangeLog
  import opened Scanning
  import opened Places
  import opened Push
  import opened LocalPush
  import Sync

  // ---- Names for conflicted copies ----------------------------------------------------

  function Digit(d: nat): char
    requires d < 10
  {
    ('0' as int + d) as char
  }

  /** The decimal form of a number. */
  function Itoa(n: nat): (s: string)
    ensures |s| > 0 && '/' !in s
  {
    if n < 10 then [Digit(n)] else Itoa(n / 10) + [Digit(n % 10)]
  }

  lemma {:induction false} ItoaInjective(m: nat, n: nat)
    requires Itoa(m) == Itoa(n)
    ensures m == n
    decreases m
  {
    var s := Itoa(m);
    assert s[|s| - 1] == Digit(m % 10) && s[|s| - 1] == Digit(n % 10);
    if m >= 10 && n >= 10 {
      assert s[..|s| - 1] == Itoa(m / 10) && s[..|s| - 1] == Itoa(n / 10);
      ItoaInjective(m / 10, n / 10);
    }
  }

  /** The suffix from the last '.' after the last '/'. */
  function Ext(path: string): (ext: string)
    ensures HasSuffix(path, ext)
    ensures ext == "" ==> forall i :: 0 <= i < |path| && path[i] == '.' ==> '/' in path[i..]
    ensures ext != "" ==> ext[0] == '.' && '.' !in ext[1..]
    ensures '/' !in ext
  {
    ExtBefore(path, |path|)
  }

  function ExtBefore(path: string, i: nat): (ext: string)
    requires i <= |path| && '/' !in path[i..] && '.' !in path[i..]
    ensures HasSuffix(path, ext)
    ensures ext == "" ==> forall k :: 0 <= k < |path| && path[k] == '.' ==> '/' in path[k..]
    ensures ext != "" ==> ext[0] == '.' && '.' !in ext[1..]
    ensures '/' !in ext
  {
    if i == 0 || path[i - 1] == '/' then ""
    else
      assert path[i - 1..] == [path[i - 1]] + path[i..];
      if path[i - 1] == '.' then path[i - 1..] else ExtBefore(path, i - 1)
  }

  function Stem(path: string): string {
    path[..|path| - |Ext(path)|]
  }

  function Marking(n: nat): string {
    if n == 1 then " (conflicted copy)" else " (conflicted copy " + Itoa(n) + ")"
  }

  /** The n-th name tried for the copy of a conflicted file. */
  function Candidate(path: string, n: nat): string {
    Stem(path) + Marking(n) + Ext(path)
  }

  /** The contract of Ext says all there is to say. */
  lemma ExtIs(path: string, ext: string)
    requires HasSuffix(path, ext) && '/' !in ext
    requires if ext == "" then forall i :: 0 <= i < |path| && path[i] == '.' ==> '/' in path[i..]
             else ext[0] == '.' && '.' !in ext[1..]
    ensures Ext(path) == ext
  {
    assert path[|path| - |ext|..] == ext && path[|path| - |Ext(path)|..] == Ext(path);
  }

  /** The names as documented: the marking goes before the extension, and the second
      and later ones have a number. */
  lemma NamesAsDocumented(stem: string, ext: string, n: nat)
    requires '/' !in ext
    requires if ext == "" then forall i :: 0 <= i < |stem| && stem[i] == '.' ==> '/' in stem[i..]
             else ext[0] == '.' && '.' !in ext[1..]
    ensures Candidate(stem + ext, n)
            == stem + (if n == 1 then " (conflicted copy)" else " (conflicted copy " + Itoa(n) + ")") + ext
  {
    var path := stem + ext;
    assert path[|path| - |ext|..] == ext;
    assert ext == "" ==> path == stem;
    ExtIs(path, ext);
    assert Stem(path) == stem;
  }

  /** The number a decimal form stands for. */
  function Decimal(s: string): int {
    if s == "" then 0 else Decimal(s[..|s| - 1]) * 10 + (s[|s| - 1] as int - '0' as int)
  }

  lemma {:induction false} ItoaReads(n: nat)
    ensures (forall c :: c in Itoa(n) ==> '0' <= c <= '9') && Decimal(Itoa(n)) == n
  {
    if n >= 10 {
      ItoaReads(n / 10);
      assert Itoa(n)[..|Itoa(n)| - 1] == Itoa(n / 10);
    } else {
      assert Itoa(n)[..0] == "";
    }
  }

  lemma MarkingInjective(m: nat, n: nat)
    requires Marking(m) == Marking(n)
    ensures m == n
  {
    PlainOrNumbered(m);
    PlainOrNumbered(n);
    if m != 1 {
      NumberIn(m);
      NumberIn(n);
      ItoaInjective(m, n);
    }
  }

  lemma PlainOrNumbered(n: nat)
    ensures |Marking(n)| > 17 && (Marking(n)[17] == ')' <==> n == 1)
  {}

  lemma NumberIn(n: nat)
    requires n != 1
    ensures var s := Marking(n); |s| >= 19 && Itoa(n) == s[18..|s| - 1]
  {}

  /** The candidates are pairwise distinct. */
  lemma CandidatesDistinct(path: string, m: nat, n: nat)
    requires m != n
    ensures Candidate(path, m) != Candidate(path, n)
  {
    if Candidate(path, m) == Candidate(path, n) {
      MiddleOf(Stem(path), Marking(m), Ext(path));
      MiddleOf(Stem(path), Marking(n), Ext(path));
      MarkingInjective(m, n);
    }
  }

  lemma MiddleOf(a: string, b: string, c: string)
    ensures (a + b + c)[|a|..|a + b + c| - |c|] == b
  {}

  // ---- Where a path's last element starts ---------------------------------------------

  predicate NoSlashFrom(x: string, k: nat) {
    forall i :: k <= i < |x| ==> x[i] != '/'
  }

  function StartBefore(x: Path, i: nat): (start: nat)
    requires i <= |x| && NoSlashFrom(x, i)
    ensures start <= i && NoSlashFrom(x, start) && (start > 0 ==> x[start - 1] == '/')
  {
    if i == 0 || x[i - 1] == '/' then i else StartBefore(x, i - 1)
  }

  /** Where the last element of a path starts. */
  function BaseStart(x: Path): (start: nat)
    ensures start <= |x| && NoSlashFrom(x, start) && (start > 0 ==> x[start - 1] == '/')
  {
    StartBefore(x, |x|)
  }

  lemma BaseStartIs(x: Path, k: nat)
    requires k <= |x| && NoSlashFrom(x, k) && (k > 0 ==> x[k - 1] == '/')
    ensures BaseStart(x) == k
  {}

  function BaseLength(x: Path): nat {
    |x| - BaseStart(x)
  }

  lemma BaseOfThree(a: string, b: string, c: string, k: nat)
    requires k <= |a| && NoSlashFrom(a, k) && '/' !in b && '/' !in c && (k > 0 ==> a[k - 1] == '/')
    ensures BaseStart(a + b + c) == k && (a + b + c)[..k] == a[..k]
  {
    BaseStartIs(a + b + c, k);
  }

  /** The candidates lie in the path's directory, and are longer by their marking. */
  lemma CandidateBase(path: string, n: nat)
    ensures BaseStart(Candidate(path, n)) == BaseStart(path)
    ensures Candidate(path, n)[..BaseStart(path)] == path[..BaseStart(path)]
    ensures BaseLength(Candidate(path, n)) == BaseLength(path) + |Marking(n)|
  {
    StemHoldsDirectory(path);
    BaseOfThree(Stem(path), Marking(n), Ext(path), BaseStart(path));
  }

  lemma StemHoldsDirectory(path: string)
    ensures BaseStart(path) <= |Stem(path)| && NoSlashFrom(Stem(path), BaseStart(path))
    ensures Stem(path)[..BaseStart(path)] == path[..BaseStart(path)]
  {
    var k, n := BaseStart(path), |Stem(path)|;
    assert path[n..] == Ext(path);
    forall i | n <= i < |path| ensures path[i] != '/' {
      assert path[n..][i - n] == path[i];
    }
  }

  // ---- The sync directory ---------------------------------------------------------------

  /** The files below the sync directory, its directories as far as files do not
      imply them, and the longest name the filesystem takes. */
  datatype Place = Place(files: Disk, dirs: set<Path>, nameMax: nat)

  /** What exists. */
  function Names(here: Place): set<Path> {
    here.files.Keys + Directories(here.files, here.dirs)
  }

  /** What looking a path up finds. Only Missing is what the search waits for:
      Refused stands for the other errors, a file where a directory is needed and a
      name too long. */
  datatype Found = IsFile | IsDirectory | Missing | Refused

  /** Element by element from the left, as the kernel walks it. */
  function Lookup(here: Place, x: Path): Found
    decreases |x|
  {
    match DirFound(here, x)
    case IsDirectory =>
      if BaseLength(x) > here.nameMax then Refused
      else if x in here.files then IsFile
      else if x in Directories(here.files, here.dirs) then IsDirectory
      else Missing
    case Missing => Missing
    case _ => Refused
  }

  /** What looking up the directory of a path finds. */
  function DirFound(here: Place, x: Path): Found
    decreases |x|, 0
  {
    if BaseStart(x) == 0 then IsDirectory else Lookup(here, x[..BaseStart(x) - 1])
  }

  lemma ParentBelow(x: Path)
    requires BaseStart(x) > 0
    ensures Below(x, x[..BaseStart(x) - 1])
    ensures forall a :: Below(x, a) ==> a == x[..BaseStart(x) - 1] || Below(x[..BaseStart(x) - 1], a)
  {
    var d := x[..BaseStart(x) - 1];
    forall a | Below(x, a) ensures a == d || Below(d, a) {
      AboveChain(x, a, d);
    }
  }

  /** What looks missing does not exist. */
  lemma {:induction false} MissingMeans(here: Place, x: Path)
    requires Lookup(here, x) == Missing
    ensures x !in Names(here)
    decreases |x|
  {
    if BaseStart(x) > 0 && DirFound(here, x) == Missing {
      var d := x[..BaseStart(x) - 1];
      ParentBelow(x);
      assert d in Above(x);
      MissingMeans(here, d);
      if x in Directories(here.files, here.dirs) {
        AboveDirectory(here.files, here.dirs, x, d);
      }
    }
  }

  lemma NothingBelow(here: Place, x: Path)
    requires x !in Names(here)
    ensures forall q :: q in here.files ==> q != x && !Below(q, x)
  {
    forall q | q in here.files ensures !Below(q, x) {
      assert x in Above(q) ==> x in Directories(here.files, here.dirs);
    }
  }

  /** What every filesystem keeps: no file is a directory, and all names fit. */
  ghost predicate Real(here: Place) {
    Treelike(here.files, here.dirs) && forall x :: x in Names(here) ==> BaseLength(x) <= here.nameMax
  }

  /** What exists is found. */
  lemma {:induction false} ExistingFound(here: Place, x: Path)
    requires Real(here) && x in Names(here)
    ensures Lookup(here, x) == if x in here.files then IsFile else IsDirectory
    decreases |x|
  {
    if BaseStart(x) > 0 {
      var d := x[..BaseStart(x) - 1];
      ParentBelow(x);
      if x in here.files {
        assert d in Above(x);
      } else {
        AboveDirectory(here.files, here.dirs, x, d);
      }
      ExistingFound(here, d);
    }
  }

  lemma NothingAboveBase(x: Path)
    requires BaseStart(x) == 0
    ensures Above(x) == {}
  {
  }

  lemma {:induction false} BelowFile(here: Place, x: Path, a: Path)
    requires Real(here) && a in here.files && Below(x, a)
    ensures Lookup(here, x) == Refused
    decreases |x|
  {
    if BaseStart(x) == 0 {
      NothingAboveBase(x);
    } else {
      ParentBelow(x);
      var d := x[..BaseStart(x) - 1];
      if d == a {
        ExistingFound(here, a);
      } else {
        BelowFile(here, d, a);
      }
    }
  }

  /** The names of the directories a path lies in are not too long. */
  ghost predicate FitsAbove(here: Place, x: Path) {
    forall a :: a in Above(x) ==> BaseLength(a) <= here.nameMax
  }

  /** A lookup of the path's directory is refused exactly if a file lies in the way. */
  lemma {:induction false} RefusedExactly(here: Place, x: Path)
    requires Real(here) && FitsAbove(here, x)
    ensures DirFound(here, x) == IsFile || DirFound(here, x) == Refused <==> FileAbove(here.files, x)
    decreases |x|
  {
    if BaseStart(x) == 0 {
      NothingAboveBase(x);
    } else {
      var d := x[..BaseStart(x) - 1];
      ParentBelow(x);
      forall a | a in Above(d) ensures a in Above(x) {
        BelowTrans(x, d, a);
      }
      RefusedExactly(here, d);
      assert d in Above(x);
      if d in here.files {
        ExistingFound(here, d);
        assert d in Above(x) * here.files.Keys;
      } else if FileAbove(here.files, x) {
        var a :| a in Above(x) * here.files.Keys;
        BelowFile(here, d, a);
      } else {
        assert Above(d) * here.files.Keys <= Above(x) * here.files.Keys;
      }
    }
  }

  // ---- The search for a name ----------------------------------------------------------------

  /** The n-th name is reported not to exist. */
  predicate FreeAt(here: Place, path: Path, n: nat) {
    Lookup(here, Candidate(path, n)) == Missing
  }

  ghost predicate SearchEnds(here: Place, path: Path) {
    exists n: nat :: n > 0 && FreeAt(here, path, n)
  }

  lemma {:induction false} LeastFree(here: Place, path: Path, n: nat) returns (m: nat)
    requires n > 0 && FreeAt(here, path, n)
    ensures 0 < m <= n && FreeAt(here, path, m) && forall k :: 0 < k < m ==> !FreeAt(here, path, k)
  {
    if k: nat :| 0 < k < n && FreeAt(here, path, k) {
      m := LeastFree(here, path, k);
    } else {
      m := n;
    }
  }

  /** How many names the search tries. */
  ghost function Tries(here: Place, path: Path): (n: nat)
    requires SearchEnds(here, path)
    ensures n > 0 && FreeAt(here, path, n) && forall k :: 0 < k < n ==> !FreeAt(here, path, k)
  {
    assert exists n: nat :: n > 0 && FreeAt(here, path, n) && forall k :: 0 < k < n ==> !FreeAt(here, path, k) by {
      var w: nat :| w > 0 && FreeAt(here, path, w);
      var m := LeastFree(here, path, w);
    }
    var n: nat :| n > 0 && FreeAt(here, path, n) && forall k :: 0 < k < n ==> !FreeAt(here, path, k);
    n
  }

  ghost predicate EndsWithin(here: Place, path: Path, tries: nat) {
    SearchEnds(here, path) && Tries(here, path) <= tries
  }

  /** The name the search ends with. */
  ghost function CopyName(here: Place, path: Path): (name: Path)
    requires SearchEnds(here, path)
    ensures name !in Names(here) && |name| > |path|
  {
    var n := Tries(here, path);
    MissingMeans(here, Candidate(path, n));
    PlainOrNumbered(n);
    Candidate(path, n)
  }

  /** The n-th name is not too long. */
  predicate Fits(here: Place, path: Path, n: nat) {
    BaseLength(Candidate(path, n)) <= here.nameMax
  }

  lemma FreeAtMeans(here: Place, path: Path, n: nat)
    ensures FreeAt(here, path, n) <==>
            || DirFound(here, path) == Missing
            || (DirFound(here, path) == IsDirectory && Fits(here, path, n) && Candidate(path, n) !in Names(here))
  {
    CandidateBase(path, n);
    var k := BaseStart(path);
    if k > 0 {
      assert Candidate(path, n)[..k - 1] == Candidate(path, n)[..k][..k - 1] == path[..k - 1];
    }
    assert DirFound(here, Candidate(path, n)) == DirFound(here, path);
  }

  /** When the search for a name ends: at once, if the path's directory does not
      exist; when some name that fits is free, if it does; and never, if something
      on the way to it is no directory or has too long a name. */
  lemma SearchEndsExactly(here: Place, path: Path)
    ensures SearchEnds(here, path) <==>
            match DirFound(here, path)
            case Missing => true
            case IsDirectory => exists n: nat :: n > 0 && Fits(here, path, n) && Candidate(path, n) !in Names(here)
            case _ => false
  {
    forall n: nat ensures FreeAt(here, path, n) <==>
                          || DirFound(here, path) == Missing
                          || (DirFound(here, path) == IsDirectory && Fits(here, path, n)
                              && Candidate(path, n) !in Names(here))
    {
      FreeAtMeans(here, path, n);
    }
    if DirFound(here, path) == Missing {
      assert FreeAt(here, path, 1);
    }
    if n: nat :| n > 0 && Fits(here, path, n) && Candidate(path, n) !in Names(here) {
      assert DirFound(here, path) == IsDirectory ==> FreeAt(here, path, n);
    }
  }

  /** The same in the terms of a real filesystem: the search ends if and only if no
      file lies in the path's way, and its directory is missing or some name that
      fits is free. */
  lemma SearchEndsUnlessBlocked(here: Place, path: Path)
    requires Real(here) && FitsAbove(here, path)
    ensures SearchEnds(here, path) <==>
            && !FileAbove(here.files, path)
            && (DirFound(here, path) == Missing
                || exists n: nat :: n > 0 && Fits(here, path, n) && Candidate(path, n) !in Names(here))
  {
    RefusedExactly(here, path);
    SearchEndsExactly(here, path);
  }

  /** The names among these that are still to be tried. */
  ghost function ToTry(names: set<Path>, path: string, n: nat): set<Path> {
    set x | x in names && exists k: nat :: k >= n && x == Candidate(path, k)
  }

  lemma OneLessToTry(names: set<Path>, path: string, n: nat)
    requires Candidate(path, n) in names
    ensures ToTry(names, path, n + 1) < ToTry(names, path, n)
    ensures |ToTry(names, path, n + 1)| < |ToTry(names, path, n)|
  {
    var c := Candidate(path, n);
    assert c in ToTry(names, path, n);
    if c in ToTry(names, path, n + 1) {
      var k: nat :| k >= n + 1 && c == Candidate(path, k);
      CandidatesDistinct(path, n, k);
    }
    SmallerSet(ToTry(names, path, n + 1), ToTry(names, path, n));
  }

  lemma SmallerSet(a: set<Path>, b: set<Path>)
    requires a < b
    ensures |a| < |b|
  {
    assert b == a + (b - a) && |b| == |a| + |b - a|;
  }

  /** Taken names use up what there is to try. */
  lemma {:induction false} TriesUseUp(names: set<Path>, path: string, n: nat)
    requires forall k :: 0 < k <= n ==> Candidate(path, k) in names
    ensures |ToTry(names, path, n + 1)| + n <= |ToTry(names, path, 1)|
  {
    if n > 0 {
      TriesUseUp(names, path, n - 1);
      OneLessToTry(names, path, n);
    }
  }

  /** If one more name fits than exists at all, the search ends within as many. */
  lemma EndsIfNamesFit(here: Place, path: Path)
    requires DirFound(here, path) == IsDirectory
    requires forall n :: 0 < n <= |Names(here)| + 1 ==> Fits(here, path, n)
    ensures EndsWithin(here, path, |Names(here)| + 1)
  {
    var names := Names(here);
    if forall k :: 0 < k <= |names| + 1 ==> Candidate(path, k) in names {
      TriesUseUp(names, path, |names| + 1);
      if ToTry(names, path, 1) == names {
      } else {
        SmallerSet(ToTry(names, path, 1), names);
      }
      assert false;
    }
    var k :| 0 < k <= |names| + 1 && Candidate(path, k) !in names;
    FreeAtMeans(here, path, k);
  }

  /** A name within 18 characters of the limit leaves no room for any marking. */
  lemma LongNameHangs(here: Place, path: Path)
    requires DirFound(here, path) == IsDirectory && BaseLength(path) + 18 > here.nameMax
    ensures !SearchEnds(here, path)
  {
    SearchEndsExactly(here, path);
    forall n: nat ensures !Fits(here, path, n) {
      CandidateBase(path, n);
      PlainOrNumbered(n);
    }
  }

  /** Two conflicts that a client never gets out of: one below a path that is a file
      here, and one on a name of 240 characters where 255 are the limit. */
  lemma HangingConflicts(f: FileStat, path: Path)
    requires |path| == 240 && '/' !in path
    ensures !SearchEnds(Place(map["a" := f], {}, 255), "a/b")
    ensures !SearchEnds(Place(map[], {}, 255), path)
  {
    var here := Place(map["a" := f], {}, 255);
    BaseStartIs("a", 0);
    BaseStartIs("a/b", 2);
    assert "a/b"[..1] == "a";
    assert Above("a") == {} && Names(here) == {"a"};
    assert DirFound(here, "a/b") == Lookup(here, "a") == IsFile;
    SearchEndsExactly(here, "a/b");
    BaseStartIs(path, 0);
    LongNameHangs(Place(map[], {}, 255), path);
  }

  /** None of the names before the n-th is free. */
  ghost predicate NoneFreeBefore(here: Place, path: Path, n: nat) {
    forall k :: 0 < k < n ==> !FreeAt(here, path, k)
  }

  lemma NoneFreeMore(here: Place, path: Path, n: nat)
    requires NoneFreeBefore(here, path, n) && !FreeAt(here, path, n)
    ensures NoneFreeBefore(here, path, n + 1)
  {}

  /** The first free name is the one the search ends with. */
  lemma FirstFree(here: Place, path: Path, n: nat)
    requires n > 0 && FreeAt(here, path, n) && NoneFreeBefore(here, path, n)
    ensures SearchEnds(here, path) && Tries(here, path) == n && CopyName(here, path) == Candidate(path, n)
  {
    var m := Tries(here, path);
    assert !(m < n) && !(n < m);
  }

  lemma NoneFree(here: Place, path: Path, tries: nat)
    requires NoneFreeBefore(here, path, tries + 1)
    ensures !EndsWithin(here, path, tries)
  {}

  method TryName(path: Path, here: Place, i: nat) returns (name: Path, free: bool)
    ensures name == Candidate(path, i) && (free <==> FreeAt(here, path, i))
  {
    var ext := Ext(path);
    var base := path[..|path| - |ext|];
    var marking := if i == 1 then " (conflicted copy)" else " (conflicted copy " + Itoa(i) + ")";
    name := base + marking + ext;
    assert name == Candidate(path, i);
    free := Lookup(here, name) == Missing;
  }

  /** The first name that is reported not to exist. The loop ends only with one; here
      it is watched for so many names, and None means that it goes on. */
  method ConflictedCopyPath(path: Path, here: Place, tries: nat) returns (candidate: Option<Path>)
    ensures candidate == if EndsWithin(here, path, tries) then Some(CopyName(here, path)) else None
  {
    var i := 1;
    while i <= tries
      invariant 0 < i <= tries + 1 && NoneFreeBefore(here, path, i)
    {
      var name, free := TryName(path, here, i);
      if free {
        FirstFree(here, path, i);
        return Some(name);
      }
      NoneFreeMore(here, path, i);
      i := i + 1;
    }
    NoneFree(here, path, tries);
    candidate := None;
  }

  // ---- Renaming ---------------------------------------------------------------------------

  /** Where a file is after a file or directory was renamed. */
  function Renamed(q: Path, from: Path, to: Path): Path {
    if q == from then to else if Below(q, from) then to + q[|from|..] else q
  }

  /** And where it was before. */
  function Unrenamed(r: Path, from: Path, to: Path): Path {
    Renamed(r, to, from)
  }

  lemma RenamedBack(q: Path, from: Path, to: Path)
    requires q != to && !Below(q, to)
    ensures Unrenamed(Renamed(q, from, to), from, to) == q
  {
    if Below(q, from) {
      var r := to + q[|from|..];
      assert r[..|to|] == to && r[|to|] == '/' && r[|to|..] == q[|from|..];
      assert from + q[|from|..] == q;
    }
  }

  /** The files after a rename to a name that did not exist. */
  function Moved(files: Disk, from: Path, to: Path): Disk
    requires forall q :: q in files ==> q != to && !Below(q, to)
  {
    var images := set q | q in files :: Renamed(q, from, to);
    assert forall r :: r in images ==> Unrenamed(r, from, to) in files by {
      forall r | r in images ensures Unrenamed(r, from, to) in files {
        var q :| q in files && Renamed(q, from, to) == r;
        RenamedBack(q, from, to);
      }
    }
    map r | r in images :: files[Unrenamed(r, from, to)]
  }

  lemma MovedAt(files: Disk, from: Path, to: Path, q: Path)
    requires forall x :: x in files ==> x != to && !Below(x, to)
    requires q in files
    ensures Renamed(q, from, to) in Moved(files, from, to) && Moved(files, from, to)[Renamed(q, from, to)] == files[q]
  {
    RenamedBack(q, from, to);
  }

  /** Nothing is left under the old name. */
  lemma MovedAway(files: Disk, from: Path, to: Path)
    requires forall x :: x in files ==> x != to && !Below(x, to)
    requires |to| > |from|
    ensures from !in Moved(files, from, to)
  {
    forall q | q in files ensures Renamed(q, from, to) != from {}
  }

  // ---- Conflicts ---------------------------------------------------------------------------

  /** What fetching the hub's version of the i-th result's path yields, if anything. */
  type Fetches = nat -> Option<Bytes>

  /** A conflict on a path where nothing is changes nothing. Otherwise the file, or
      the directory with all its files, moves to the name the search ends with, and
      the hub's version, if it has one and it could be fetched, takes its place. A
      search that does not end changes nothing either, ever. */
  ghost function AfterConflict(here: Place, path: Path, digest: Digest, fetched: Option<Bytes>, at: int): Place {
    if !SearchEnds(here, path) || path !in Names(here) then here
    else
      var copy := CopyName(here, path);
      NothingBelow(here, copy);
      var moved := Moved(here.files, path, copy);
      var dirs := set d | d in here.dirs :: Renamed(d, path, copy);
      if digest == [] || fetched.None? then here.(files := moved, dirs := dirs)
      else here.(files := moved[path := FileStat(fetched.value, 0x1A4, at)], dirs := dirs)
  }

  ghost function AfterResults(here: Place, results: seq<PushResult>, fetches: Fetches, at: int): Place {
    if results == [] then here
    else
      var before := AfterResults(here, Front(results), fetches, at);
      match Last(results).outcome
      case Accepted(_) => before
      case Conflict(_, _, digest) => AfterConflict(before, Last(results).path, digest, fetches(|results| - 1), at)
  }

  /** The client gets past the last of these results within so many tries. */
  ghost predicate GetsPast(here: Place, results: seq<PushResult>, fetches: Fetches, at: int, tries: nat)
    requires results != []
  {
    Last(results).outcome.Conflict? ==>
      EndsWithin(AfterResults(here, Front(results), fetches, at), Last(results).path, tries)
  }

  /** How many results are handled, if no search gets more than so many tries: all
      before the first conflict whose search does not end within them. */
  ghost function HandledWithin(here: Place, results: seq<PushResult>, fetches: Fetches, at: int, tries: nat): (k: nat)
    ensures k <= |results|
  {
    if results == [] then 0
    else
      var k := HandledWithin(here, Front(results), fetches, at, tries);
      if k == |results| - 1 && GetsPast(here, results, fetches, at, tries) then k + 1 else k
  }

  /** The search at the last of these results, if it is a conflict, ends. */
  ghost predicate LastEnds(here: Place, results: seq<PushResult>, fetches: Fetches, at: int)
    requires results != []
  {
    Last(results).outcome.Conflict? ==> SearchEnds(AfterResults(here, Front(results), fetches, at), Last(results).path)
  }

  lemma {:induction false} MoreTriesHandleMore(here: Place, results: seq<PushResult>, fetches: Fetches, at: int,
                                               tries: nat, more: nat)
    requires tries <= more && HandledWithin(here, results, fetches, at, tries) == |results|
    ensures HandledWithin(here, results, fetches, at, more) == |results|
  {
    if results != [] {
      MoreTriesHandleMore(here, Front(results), fetches, at, tries, more);
    }
  }

  /** The client gets past the whole response. */
  ghost predicate Returns(here: Place, results: seq<PushResult>, fetches: Fetches, at: int) {
    exists tries: nat :: HandledWithin(here, results, fetches, at, tries) == |results|
  }

  lemma ReturnsOneMore(here: Place, results: seq<PushResult>, fetches: Fetches, at: int)
    requires results != []
    ensures Returns(here, results, fetches, at) <==>
            Returns(here, Front(results), fetches, at) && LastEnds(here, results, fetches, at)
  {
    var front := Front(results);
    if t: nat :| HandledWithin(here, results, fetches, at, t) == |results| {
      assert HandledWithin(here, front, fetches, at, t) == |front|;
    }
    if Returns(here, front, fetches, at) && LastEnds(here, results, fetches, at) {
      var t: nat :| HandledWithin(here, front, fetches, at, t) == |front|;
      var more := if Last(results).outcome.Conflict?
                  then t + Tries(AfterResults(here, front, fetches, at), Last(results).path) else t;
      MoreTriesHandleMore(here, front, fetches, at, t, more);
      assert HandledWithin(here, results, fetches, at, more) == |results|;
    }
  }

  /** Whether the client ever gets past a whole response: exactly if the search at
      each conflict ends. */
  lemma {:induction false} HandlingEndsExactly(here: Place, results: seq<PushResult>, fetches: Fetches, at: int)
    ensures Returns(here, results, fetches, at) <==>
            forall i :: 0 < i <= |results| ==> LastEnds(here, results[..i], fetches, at)
  {
    if results == [] {
      assert HandledWithin(here, results, fetches, at, 0) == |results|;
    } else {
      ReturnsOneMore(here, results, fetches, at);
      HandlingEndsExactly(here, Front(results), fetches, at);
      assert results[..|results|] == results;
      forall i | 0 < i < |results| ensures results[..i] == Front(results)[..i] {}
    }
  }

  /** Every file's bytes and stat are still under some name. */
  ghost predicate Survives(before: Disk, after: Disk) {
    forall p :: p in before ==> Holds(after, before[p])
  }

  ghost predicate Holds(files: Disk, f: FileStat) {
    exists q :: q in files && files[q] == f
  }

  lemma SurvivesTrans(a: Disk, b: Disk, c: Disk)
    requires Survives(a, b) && Survives(b, c)
    ensures Survives(a, c)
  {
    forall p | p in a ensures Holds(c, a[p]) {
      assert Holds(b, a[p]);
      var q :| q in b && b[q] == a[p];
      assert Holds(c, b[q]);
    }
  }

  lemma SurvivesSame(a: Disk)
    ensures Survives(a, a)
  {
    forall p | p in a ensures Holds(a, a[p]) {
      assert p in a && a[p] == a[p];
    }
  }

  /** Where each file is afterwards: under the copy's name, which did not exist, if
      it was at the path or below it, and where it was otherwise. */
  lemma ConflictMoves(here: Place, path: Path, digest: Digest, fetched: Option<Bytes>, at: int, p: Path)
    requires SearchEnds(here, path) && path in Names(here) && p in here.files
    ensures var copy, after := CopyName(here, path), AfterConflict(here, path, digest, fetched, at).files;
            && copy !in Names(here)
            && Renamed(p, path, copy) in after && after[Renamed(p, path, copy)] == here.files[p]
  {
    var copy := CopyName(here, path);
    NothingBelow(here, copy);
    MovedAt(here.files, path, copy, p);
    MovedAway(here.files, path, copy);
  }

  /** What lies at the path afterwards, and everywhere else: the hub's version, if it has
      one and it could be fetched, and otherwise no file; and the files there were,
      under their names or below the copy's. */
  lemma ConflictLeaves(here: Place, path: Path, digest: Digest, fetched: Option<Bytes>, at: int)
    requires SearchEnds(here, path) && path in Names(here)
    ensures var copy, after := CopyName(here, path), AfterConflict(here, path, digest, fetched, at).files;
            && (digest != [] && fetched.Some? ==> path in after && after[path] == FileStat(fetched.value, 0x1A4, at))
            && (digest == [] || fetched.None? ==> path !in after)
            && forall q :: q in after && q != path ==> CameFrom(here.files, path, copy, q, after[q])
  {
    var copy, after := CopyName(here, path), AfterConflict(here, path, digest, fetched, at).files;
    NothingBelow(here, copy);
    MovedAway(here.files, path, copy);
    forall q | q in after && q != path ensures CameFrom(here.files, path, copy, q, after[q]) {
      assert q in Moved(here.files, path, copy);
      MovedFrom(here.files, path, copy, q);
    }
  }

  /** A directory moves with all directories in it, and nothing is left under its name
      but what the hub's version puts there. */
  lemma ConflictMovesDirectories(here: Place, path: Path, digest: Digest, fetched: Option<Bytes>, at: int)
    requires SearchEnds(here, path) && path in Names(here)
    ensures var copy, after := CopyName(here, path), AfterConflict(here, path, digest, fetched, at);
            && after.nameMax == here.nameMax
            && (forall d :: d in here.dirs ==> Renamed(d, path, copy) in after.dirs)
            && (forall d :: d in after.dirs ==> exists o :: o in here.dirs && Renamed(o, path, copy) == d)
            && (forall q :: q in after.files || q in after.dirs ==> !Below(q, path) && (q == path ==> q in after.files))
  {
    var copy := CopyName(here, path);
    NothingBelow(here, copy);
    CopyBeside(here, path);
    forall q ensures !Below(Renamed(q, path, copy), path) && Renamed(q, path, copy) != path {
      RenamedAway(q, path, copy);
    }
  }

  /** The copy does not lie below the path. */
  lemma CopyBeside(here: Place, path: Path)
    requires SearchEnds(here, path)
    ensures !Below(CopyName(here, path), path)
  {
    CandidateBase(path, Tries(here, path));
  }

  /** Nothing is renamed to the old name, or below it. */
  lemma RenamedAway(q: Path, from: Path, to: Path)
    requires |to| > |from| && !Below(to, from)
    ensures Renamed(q, from, to) != from && !Below(Renamed(q, from, to), from)
  {
    if Below(q, from) {
      assert Renamed(q, from, to)[..|to|] == to;
    }
  }

  /** A file of the old ones is at q after the rename. */
  ghost predicate CameFrom(files: Disk, from: Path, to: Path, q: Path, f: FileStat) {
    exists p :: p in files && Renamed(p, from, to) == q && files[p] == f
  }

  lemma MovedFrom(files: Disk, from: Path, to: Path, q: Path)
    requires forall x :: x in files ==> x != to && !Below(x, to)
    requires q in Moved(files, from, to)
    ensures CameFrom(files, from, to, q, Moved(files, from, to)[q])
  {
    var p :| p in files && Renamed(p, from, to) == q;
    MovedAt(files, from, to, p);
  }

  lemma {:induction false} ConflictKeepsBytes(here: Place, path: Path, digest: Digest, fetched: Option<Bytes>, at: int)
    ensures Survives(here.files, AfterConflict(here, path, digest, fetched, at).files)
  {
    if SearchEnds(here, path) && path in Names(here) {
      forall p | p in here.files ensures Holds(AfterConflict(here, path, digest, fetched, at).files, here.files[p]) {
        ConflictMoves(here, path, digest, fetched, at, p);
      }
    } else {
      SurvivesSame(here.files);
    }
  }

  /** Handling a push response never destroys local bytes, whatever the hub
      answers, in whatever order, and whatever it serves. */
  lemma {:induction false} ResponseKeepsBytes(here: Place, results: seq<PushResult>, fetches: Fetches, at: int)
    ensures Survives(here.files, AfterResults(here, results, fetches, at).files)
  {
    if results == [] {
      SurvivesSame(here.files);
    } else {
      ResponseKeepsBytes(here, Front(results), fetches, at);
      var before := AfterResults(here, Front(results), fetches, at);
      match Last(results).outcome
      case Accepted(_) =>
      case Conflict(_, _, digest) =>
        var path, fetched := Last(results).path, fetches(|results| - 1);
        ConflictKeepsBytes(before, path, digest, fetched, at);
        SurvivesTrans(here.files, before.files, AfterConflict(before, path, digest, fetched, at).files);
    }
  }

  /** Once the i-th result, a conflict the client got past, is handled, the hub's version
      is at its path. */
  lemma HubVersionInPlace(here: Place, results: seq<PushResult>, fetches: Fetches, at: int, i: nat)
    requires i < |results| && results[i].outcome.Conflict?
    requires LastEnds(here, results[..i + 1], fetches, at)
    requires results[i].path in Names(AfterResults(here, results[..i], fetches, at))
    requires results[i].outcome.currentDigest != [] && fetches(i).Some?
    ensures HoldsAt(AfterResults(here, results[..i + 1], fetches, at), results[i].path, fetches(i).value, at)
  {
    assert Front(results[..i + 1]) == results[..i] && Last(results[..i + 1]) == results[i];
    ConflictLeaves(AfterResults(here, results[..i], fetches, at), results[i].path, results[i].outcome.currentDigest,
                   fetches(i), at);
  }

  /** The file at the path has these bytes, written then. */
  ghost predicate HoldsAt(here: Place, path: Path, data: Bytes, at: int) {
    path in here.files && here.files[path] == FileStat(data, 0x1A4, at)
  }

  /** And it is still there after the n-th result, if no later conflict is about the
      path or a directory it lies in. */
  lemma {:induction false} HubVersionStays(here: Place, results: seq<PushResult>, fetches: Fetches, at: int, i: nat,
                                           n: nat, path: Path, data: Bytes)
    requires i <= n <= |results| && HoldsAt(AfterResults(here, results[..i], fetches, at), path, data, at)
    requires forall k :: i <= k < n ==> results[k].path != path && !Below(path, results[k].path)
    ensures HoldsAt(AfterResults(here, results[..n], fetches, at), path, data, at)
  {
    if i < n {
      HubVersionStays(here, results, fetches, at, i, n - 1, path, data);
      assert Front(results[..n]) == results[..n - 1] && Last(results[..n]) == results[n - 1];
      var before := AfterResults(here, results[..n - 1], fetches, at);
      match results[n - 1].outcome
      case Accepted(_) =>
      case Conflict(_, _, digest) =>
        if SearchEnds(before, results[n - 1].path) && results[n - 1].path in Names(before) {
          ConflictMoves(before, results[n - 1].path, digest, fetches(n - 1), at, path);
        }
    }
  }

  // ---- The cursor ------------------------------------------------------------------------------

  /** An acknowledged op sets the cursor to the version the hub reported. */
  ghost function CursorAfter(cursor: nat, results: seq<PushResult>, changes: seq<LocalChange>,
                             deletions: seq<LocalDeletion>): nat {
    if results == [] then cursor
    else
      var before := CursorAfter(cursor, Front(results), changes, deletions);
      var r := Last(results);
      if r.outcome.Accepted? && (FindChange(changes, r.path).Some?
                                 || IsDeletion(deletions, r.path)) then r.outcome.version else before
  }

  function CountAccepted(results: seq<PushResult>): nat {
    if results == [] then 0 else CountAccepted(Front(results)) + (if Last(results).outcome.Accepted? then 1 else 0)
  }

  /** What the client reports as accepted is how many results say so. */
  lemma {:induction false} CountedExactly(results: seq<PushResult>)
    ensures CountAccepted(results) == |set i | 0 <= i < |results| && results[i].outcome.Accepted?|
  {
    if results != [] {
      var front := Front(results);
      CountedExactly(front);
      var before := set i | 0 <= i < |front| && front[i].outcome.Accepted?;
      var all := set i | 0 <= i < |results| && results[i].outcome.Accepted?;
      assert all == before + (if Last(results).outcome.Accepted? then {|front|} else {});
    }
  }

  /** The cursor is the version of the last accepted result about a pushed path, and
      stays if there is none. */
  lemma {:induction false} CursorIsLastAccepted(cursor: nat, results: seq<PushResult>, changes: seq<LocalChange>,
                                                deletions: seq<LocalDeletion>, k: nat)
    requires k <= |results|
    requires forall i :: k <= i < |results| ==> !MovesCursor(results[i], changes, deletions)
    requires k > 0 ==> MovesCursor(results[k - 1], changes, deletions)
    ensures CursorAfter(cursor, results, changes, deletions)
            == if k == 0 then cursor else results[k - 1].outcome.version
  {
    if k < |results| {
      CursorIsLastAccepted(cursor, Front(results), changes, deletions, k);
    }
  }

  ghost predicate MovesCursor(r: PushResult, changes: seq<LocalChange>, deletions: seq<LocalDeletion>) {
    r.outcome.Accepted? && ((exists c :: c in changes && c.path == r.path) || IsDeletion(deletions, r.path))
  }

  lemma {:induction false} SinceAbove(log: Log, since: int, e: ChangeEntry)
    requires e in Since(log, since)
    ensures e in log && e.version > since
  {
    if e in Since(Front(log), since) {
      SinceAbove(Front(log), since, e);
    }
  }

  /** In write mode the cursor is no longer the position of the tree: an op accepted
      at some version moves it there, and a subscription from there never sends the
      records below, seen or not. Nothing unseen but the op's own record is skipped
      if and only if that version is at most one past the cursor. A delete of a path
      the hub did not have moves it back to 0, and a subscription from there sends
      the whole log again. */
  lemma {:induction false} PushMovesCursor(log: Log, cursor: nat, r: PushResult, changes: seq<LocalChange>,
                                           deletions: seq<LocalDeletion>)
    requires Dense(log) && r.outcome.Accepted? && r.outcome.version <= |log|
    requires FindChange(changes, r.path).Some? || IsDeletion(deletions, r.path)
    ensures var cursor', v := CursorAfter(cursor, [r], changes, deletions), r.outcome.version;
            && cursor' == v
            && (forall e :: e in log && cursor < e.version <= v ==> e !in Since(log, cursor'))
            && ((forall e :: e in log && e.version > cursor && e.version != v ==> e in Since(log, cursor')) <==>
                v <= cursor + 1)
            && (v == 0 ==> Since(log, cursor') == log)
  {
    assert Last([r]) == r;
    var v := r.outcome.version;
    SinceIsSuffix(log, v);
    forall e | e in Since(log, v) ensures e.version > v {
      SinceAbove(log, v, e);
    }
    forall e | e in log && e.version > v ensures e in Since(log, v) {
      var i :| 0 <= i < |log| && log[i] == e;
      assert log[v..][i - v] == e;
    }
    if v > cursor + 1 {
      assert log[cursor].version == cursor + 1 && log[cursor] in log;
    }
    if v == 0 {
      assert log[0..] == log;
    }
  }

  // ---- The client object ------------------------------------------------------------------------

  class Client {
    const store: Sync.ClientStore
    var here: Place
    const hash: Hasher

    constructor (store: Sync.ClientStore, here: Place, hash: Hasher)
      ensures this.store == store && this.here == here && this.hash == hash
    {
      this.store, this.here, this.hash := store, here, hash;
    }

    /** Walk the files against hub_tree, then look for rows without a file. */
    method ScanLocal() returns (changes: seq<LocalChange>, deletions: seq<LocalDeletion>)
      ensures IsLocalScan(changes, deletions, here.files, store.tree, hash)
    {
      changes, deletions := [], [];
      var files := here.files;
      var tree := store.tree;
      var seen: set<Path> := {};
      var todo := files.Keys;
      while todo != {}
        invariant todo <= files.Keys && seen == files.Keys - todo
        invariant ScannedSoFar(changes, seen, files, tree, hash)
        decreases todo
      {
        var p :| p in todo;
        todo := todo - {p};
        ghost var before := seen;
        seen := seen + {p};
        if p in tree && LooksUnchanged(files[p], tree[p]) {
          ScannedSkip(changes, before, files, tree, hash, p);
          continue;
        }
        var localDigest := hash(files[p].content);
        if p in tree && localDigest == tree[p].meta.digest {
          ScannedSkip(changes, before, files, tree, hash, p);
          continue;
        }
        ScannedMore(changes, before, files, tree, hash, p);
        changes := changes + [LocalChange(p, localDigest, files[p].content, if p in tree then Some(tree[p]) else None)];
      }
      var rows := tree.Keys;
      while rows != {}
        invariant rows <= tree.Keys
        invariant forall d :: d in deletions ==>
          d.path in tree && d.path !in rows && d.path !in files && d.hub == tree[d.path]
        invariant forall p :: p in tree && p !in rows && p !in files ==> LocalDeletion(p, tree[p]) in deletions
        invariant forall i, j :: 0 <= i < j < |deletions| ==> deletions[i].path != deletions[j].path
        decreases rows
      {
        var p :| p in rows;
        rows := rows - {p};
        if p !in seen {
          ghost var before := deletions;
          deletions := deletions + [LocalDeletion(p, tree[p])];
          assert forall d :: d in deletions <==> d in before || d == LocalDeletion(p, tree[p]);
        }
      }
    }

    /** Move what is at the path aside and put the hub's version in its place, if the
        search for a name ends within so many tries. */
    method HandleConflict(path: Path, digest: Digest, fetched: Option<Bytes>, at: int, tries: nat) returns (done: bool)
      modifies this`here
      ensures done <==> EndsWithin(old(here), path, tries)
      ensures here == if done then AfterConflict(old(here), path, digest, fetched, at) else old(here)
    {
      var candidate := ConflictedCopyPath(path, here, tries);
      if candidate.None? {
        return false;
      }
      done := true;
      if path !in Names(here) {
        return;
      }
      var copy := candidate.value;
      NothingBelow(here, copy);
      here := here.(files := Moved(here.files, path, copy), dirs := set d | d in here.dirs :: Renamed(d, path, copy));
      if |digest| > 0 && fetched.Some? {
        here := here.(files := here.files[path := FileStat(fetched.value, 0x1A4, at)]);
      }
    }

    /** The row for an accepted op. */
    method UpdateHubTreeAfterPush(path: Path, version: nat, changes: seq<LocalChange>, deletions: seq<LocalDeletion>)
      modifies store
      ensures store.tree == Acknowledge(old(store.tree), path, version, changes, deletions)
      ensures store.hubVersion ==
        if FindChange(changes, path).Some? || IsDeletion(deletions, path) then version else old(store.hubVersion)
    {
      for i := 0 to |changes|
        invariant FindChange(changes, path) == FindChange(changes[i..], path)
        invariant store.tree == old(store.tree) && store.hubVersion == old(store.hubVersion)
      {
        assert changes[i..][1..] == changes[i + 1..];
        if changes[i].path == path {
          var op := if changes[i].hub.Some? then Update else Create;
          store.ApplyChange(version, path, op, Meta(File, changes[i].digest, |changes[i].data|, 0x1A4, 0));
          return;
        }
      }
      assert changes[|changes|..] == [];
      for i := 0 to |deletions|
        invariant forall k :: 0 <= k < i ==> deletions[k].path != path
        invariant store.tree == old(store.tree) && store.hubVersion == old(store.hubVersion)
      {
        if deletions[i].path == path {
          store.ApplyChange(version, path, Delete, Meta(File, [], 0, 0, 0));
          return;
        }
      }
    }

    /** Take the answer op by op: the rows of accepted ops are acknowledged, the
        files of refused ones are moved aside, and no local bytes are lost. The
        client is watched until a search for a name takes more than so many tries. */
    method HandlePushResponse(results: seq<PushResult>, changes: seq<LocalChange>, deletions: seq<LocalDeletion>,
                              fetches: Fetches, at: int, tries: nat)
        returns (accepted: nat, handled: nat)
      modifies this`here, store
      ensures handled == HandledWithin(old(here), results, fetches, at, tries)
      ensures store.tree == AcknowledgeAll(old(store.tree), results[..handled], changes, deletions)
      ensures store.hubVersion == CursorAfter(old(store.hubVersion), results[..handled], changes, deletions)
      ensures here == AfterResults(old(here), results[..handled], fetches, at) && Survives(old(here.files), here.files)
      ensures accepted == CountAccepted(results[..handled])
    {
      accepted, handled := 0, 0;
      while handled < |results|
        invariant handled <= |results|
        invariant HandledWithin(old(here), results[..handled], fetches, at, tries) == handled
        invariant store.tree == AcknowledgeAll(old(store.tree), results[..handled], changes, deletions)
        invariant store.hubVersion == CursorAfter(old(store.hubVersion), results[..handled], changes, deletions)
        invariant here == AfterResults(old(here), results[..handled], fetches, at)
        invariant accepted == CountAccepted(results[..handled])
        decreases |results| - handled
      {
        ghost var more := results[..handled + 1];
        assert Front(more) == results[..handled] && Last(more) == results[handled];
        match results[handled].outcome {
          case Accepted(version) =>
            UpdateHubTreeAfterPush(results[handled].path, version, changes, deletions);
            accepted := accepted + 1;
          case Conflict(_, _, digest) =>
            var done := HandleConflict(results[handled].path, digest, fetches(handled), at, tries);
            if !done {
              StaysBehind(old(here), results, fetches, at, tries, handled);
              break;
            }
        }
        handled := handled + 1;
      }
      if handled == |results| {
        assert results[..|results|] == results;
      }
      ResponseKeepsBytes(old(here), results[..handled], fetches, at);
    }
  }

  /** A result that is not got past holds up all that follow. */
  lemma {:induction false} StaysBehind(here: Place, results: seq<PushResult>, fetches: Fetches, at: int, tries: nat,
                                       k: nat)
    requires k < |results| && HandledWithin(here, results[..k], fetches, at, tries) == k
    requires !GetsPast(here, results[..k + 1], fetches, at, tries)
    ensures HandledWithin(here, results, fetches, at, tries) == k
  {
    if k + 1 == |results| {
      assert results[..k + 1] == results && Front(results) == results[..k];
    } else {
      assert Front(results)[..k] == results[..k] && Front(results)[..k + 1] == results[..k + 1];
      StaysBehind(here, Front(results), fetches, at, tries, k);
    }
  }

  /** The changes among the files seen so far. */
  ghost predicate ScannedSoFar(changes: seq<LocalChange>, seen: set<Path>, files: Disk, tree: Tree, hash: Hasher) {
    && (forall c :: c in changes ==>
         c.path in seen && c.path in files && Differs(c.path, files, tree, hash)
           && c == ChangeOf(c.path, files, tree, hash))
    && (forall p :: p in seen && p in files && Differs(p, files, tree, hash) ==>
        ChangeOf(p, files, tree, hash) in changes)
    && (forall i, j :: 0 <= i < j < |changes| ==> changes[i].path != changes[j].path)
  }

  lemma ScannedSkip(changes: seq<LocalChange>, seen: set<Path>, files: Disk, tree: Tree, hash: Hasher, p: Path)
    requires ScannedSoFar(changes, seen, files, tree, hash) && p in files && !Differs(p, files, tree, hash)
    ensures ScannedSoFar(changes, seen + {p}, files, tree, hash)
  {}

  lemma ScannedMore(changes: seq<LocalChange>, seen: set<Path>, files: Disk, tree: Tree, hash: Hasher, p: Path)
    requires ScannedSoFar(changes, seen, files, tree, hash) && p in files && p !in seen && Differs(p, files, tree, hash)
    ensures ScannedSoFar(changes + [ChangeOf(p, files, tree, hash)], seen + {p}, files, tree, hash)
  {
    var changes' := changes + [ChangeOf(p, files, tree, hash)];
    forall i, j | 0 <= i < j < |changes'| ensures changes'[i].path != changes'[j].path {
      assert changes[i] in changes;
    }
    assert forall c :: c in changes' <==> c in changes || c == ChangeOf(p, files, tree, hash);
  }
}
