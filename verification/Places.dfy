/** Files and directories below one directory: who is above whom, what a write or a
    removal needs, and what it leaves (os.MkdirAll, os.WriteFile, os.Remove). */
module Places {
  import opened Types
  import opened Scanning

  /** q lies below the directory dir. */
  predicate Below(q: Path, dir: Path) {
    |dir| < |q| && q[..|dir|] == dir && q[|dir|] == '/'
  }

  /** The directories a path lies in. */
  function Above(p: Path): (dirs: set<Path>)
    ensures forall d :: d in dirs <==> Below(p, d)
  {
    set i | 0 <= i < |p| && p[i] == '/' :: p[..i]
  }

  lemma BelowTrans(p: Path, q: Path, r: Path)
    requires Below(p, q) && Below(q, r)
    ensures Below(p, r)
  {
    assert p[..|r|] == q[..|r|];
  }

  /** Two directories a path lies in are the same, or one lies in the other. */
  lemma AboveChain(p: Path, a: Path, b: Path)
    requires Below(p, a) && Below(p, b)
    ensures a == b || Below(a, b) || Below(b, a)
  {
    if |a| < |b| {
      assert b[..|a|] == p[..|a|] && b[|a|] == p[|a|];
    } else if |b| < |a| {
      assert a[..|b|] == p[..|b|] && a[|b|] == p[|b|];
    } else {
      assert a == p[..|a|] == b;
    }
  }

  function AllAbove(names: set<Path>): set<Path> {
    set q, d | q in names && d in Above(q) :: d
  }

  /** All directories: those given, and those that files or directories lie in. */
  function Directories(files: Disk, dirs: set<Path>): set<Path> {
    dirs + AllAbove(files.Keys + dirs)
  }

  /** A file lies where the path needs a directory. */
  predicate FileAbove(files: Disk, p: Path) {
    Above(p) * files.Keys != {}
  }

  /** The path can be written: there is a file at it, or nothing is in the way of one. */
  predicate Free(files: Disk, dirs: set<Path>, p: Path) {
    !FileAbove(files, p) && p !in Directories(files, dirs)
  }

  /** What every filesystem keeps: no file is also a directory, so that none lies
      below another. */
  ghost predicate Treelike(files: Disk, dirs: set<Path>) {
    files.Keys !! Directories(files, dirs)
  }

  lemma NoFileAboveFile(files: Disk, dirs: set<Path>, p: Path)
    requires Treelike(files, dirs) && (p in files || p in dirs)
    ensures !FileAbove(files, p)
  {
    forall a | a in Above(p) ensures a !in files {
      assert a in Directories(files, dirs);
    }
  }

  /** A file can be overwritten. */
  lemma FileIsFree(files: Disk, dirs: set<Path>, p: Path)
    requires Treelike(files, dirs) && p in files
    ensures Free(files, dirs, p)
  {
    NoFileAboveFile(files, dirs, p);
  }

  // ---- Making and removing ----------------------------------------------------------

  /** The directories after the missing ones above p were made. */
  function Made(files: Disk, dirs: set<Path>, p: Path): set<Path> {
    dirs + (Above(p) - Directories(files, dirs))
  }

  predicate EmptyDirectory(files: Disk, dirs: set<Path>, p: Path) {
    p in dirs && p !in AllAbove(files.Keys + dirs)
  }

  /** A removal takes a file or an empty directory, and leaves what it lay in. */
  function Unlinked(files: Disk, dirs: set<Path>, p: Path): (Disk, set<Path>) {
    if p in files then (files - {p}, dirs + Above(p))
    else if EmptyDirectory(files, dirs, p) then (files, dirs - {p} + Above(p))
    else (files, dirs)
  }

  /** A removal fails, other than for want of anything to remove. */
  predicate CannotUnlink(files: Disk, dirs: set<Path>, p: Path) {
    p !in files && !EmptyDirectory(files, dirs, p) && (FileAbove(files, p) || p in Directories(files, dirs))
  }

  /** What is above the new files and directories was above the old ones or is above p. */
  lemma DirectoriesWithin(files: Disk, dirs: set<Path>, files': Disk, dirs': set<Path>, p: Path)
    requires files'.Keys <= files.Keys + {p} && dirs' <= Directories(files, dirs) + Above(p)
    ensures Directories(files', dirs') <= Directories(files, dirs) + Above(p)
  {
    forall d | d in Directories(files', dirs') ensures d in Directories(files, dirs) + Above(p) {
      if d !in dirs' {
        var q :| q in files'.Keys + dirs' && d in Above(q);
        if q in Above(p) {
          BelowTrans(p, q, d);
        } else if q in dirs' && q !in dirs {
          var r :| r in files.Keys + dirs && q in Above(r);
          BelowTrans(r, q, d);
        }
      }
    }
  }

  /** Making what is missing above p leaves p what it was, and makes nothing if p is
      a directory already. */
  lemma MadeDirectories(files: Disk, dirs: set<Path>, p: Path)
    ensures p in Directories(files, Made(files, dirs, p)) <==> p in Directories(files, dirs)
    ensures p in Directories(files, dirs) ==> Made(files, dirs, p) == dirs
  {
    DirectoriesWithin(files, dirs, files, Made(files, dirs, p), p);
    if p in Directories(files, dirs) {
      forall d | d in Above(p) ensures d in Directories(files, dirs) {
        AboveDirectory(files, dirs, p, d);
      }
    }
  }

  lemma AboveDirectory(files: Disk, dirs: set<Path>, p: Path, d: Path)
    requires p in Directories(files, dirs) && Below(p, d)
    ensures d in Directories(files, dirs)
  {
    if p in dirs {
      assert d in Above(p);
    } else {
      var q :| q in files.Keys + dirs && p in Above(q);
      BelowTrans(q, p, d);
      assert d in Above(q);
    }
  }

  /** Making what is missing above p makes exactly that. */
  lemma MadeExactly(files: Disk, dirs: set<Path>, p: Path)
    ensures Directories(files, Made(files, dirs, p)) == Directories(files, dirs) + Above(p)
  {
    DirectoriesWithin(files, dirs, files, Made(files, dirs, p), p);
    forall d | d in Directories(files, dirs) ensures d in Directories(files, Made(files, dirs, p)) {
      if d !in dirs {
        var q :| q in files.Keys + dirs && d in Above(q);
        assert q in files.Keys + Made(files, dirs, p);
      }
    }
  }

  /** Removing a file, or a directory with nothing in it, removes exactly that; removing
      anything else removes nothing. */
  lemma UnlinkedExactly(files: Disk, dirs: set<Path>, p: Path)
    requires Treelike(files, dirs)
    ensures var (files', dirs') := Unlinked(files, dirs, p);
            var empty := p in Directories(files, dirs) && forall q :: q in files || q in dirs ==> !Below(q, p);
            && files' == files - {p}
            && Directories(files', dirs') == Directories(files, dirs) - (if empty then {p} else {})
            && (CannotUnlink(files, dirs, p) <==> FileAbove(files, p) || (p in Directories(files, dirs) && !empty))
  {
    var (files', dirs') := Unlinked(files, dirs, p);
    var all := Directories(files, dirs);
    if p in files || p in dirs {
      NoFileAboveFile(files, dirs, p);
    }
    EmptyMeans(files, dirs, p);
    if p in files || EmptyDirectory(files, dirs, p) {
      DirectoriesWithin(files, dirs, files', dirs', p);
      forall d | d in Above(p) ensures d in all {
        assert p in files.Keys + dirs;
      }
      forall d | d in all && d != p ensures d in Directories(files', dirs') {
        StaysDirectory(files, dirs, p, d);
      }
      if EmptyDirectory(files, dirs, p) {
        GoneDirectory(files, dirs, p);
      }
    } else {
      assert p !in files && files - {p} == files;
    }
  }

  lemma EmptyMeans(files: Disk, dirs: set<Path>, p: Path)
    ensures EmptyDirectory(files, dirs, p) <==>
            p in Directories(files, dirs) && forall q :: q in files || q in dirs ==> !Below(q, p)
  {
    if EmptyDirectory(files, dirs, p) {
      forall q | q in files || q in dirs ensures !Below(q, p) {
        assert p in Above(q) && q in files.Keys + dirs ==> p in AllAbove(files.Keys + dirs);
      }
    }
  }

  lemma StaysDirectory(files: Disk, dirs: set<Path>, p: Path, d: Path)
    requires p in files || EmptyDirectory(files, dirs, p)
    requires d in Directories(files, dirs) && d != p
    ensures var (files', dirs') := Unlinked(files, dirs, p); d in Directories(files', dirs')
  {
    var (files', dirs') := Unlinked(files, dirs, p);
    if d !in dirs {
      var q :| q in files.Keys + dirs && d in Above(q);
      assert q != p ==> q in files'.Keys + dirs';
    }
  }

  lemma GoneDirectory(files: Disk, dirs: set<Path>, p: Path)
    requires EmptyDirectory(files, dirs, p) && p !in files
    ensures var (files', dirs') := Unlinked(files, dirs, p); p !in Directories(files', dirs')
  {
    var (files', dirs') := Unlinked(files, dirs, p);
    forall q | q in files'.Keys + dirs' ensures p !in Above(q) {
      if q in dirs {
        assert p in Above(q) ==> p in AllAbove(files.Keys + dirs);
      }
    }
  }

  lemma WriteTreelike(files: Disk, dirs: set<Path>, dirs': set<Path>, p: Path, f: FileStat)
    requires Treelike(files, dirs) && Free(files, dirs, p)
    requires dirs' <= Directories(files, dirs) + Above(p)
    ensures Treelike(files[p := f], dirs')
  {
    DirectoriesWithin(files, dirs, files[p := f], dirs', p);
  }

  lemma MakeTreelike(files: Disk, dirs: set<Path>, p: Path)
    requires Treelike(files, dirs) && !FileAbove(files, p)
    ensures Treelike(files, Made(files, dirs, p))
  {
    DirectoriesWithin(files, dirs, files, Made(files, dirs, p), p);
  }

  lemma DirectoryTreelike(files: Disk, dirs: set<Path>, p: Path)
    requires Treelike(files, dirs) && p !in files && !FileAbove(files, p)
    ensures Treelike(files, Made(files, dirs, p) + {p})
  {
    MakeTreelike(files, dirs, p);
    forall d | d in Directories(files, Made(files, dirs, p) + {p}) ensures d !in files {
      assert d in Directories(files, Made(files, dirs, p)) || d == p || d in Above(p);
    }
  }

  lemma UnlinkTreelike(files: Disk, dirs: set<Path>, p: Path)
    requires Treelike(files, dirs)
    ensures var (files', dirs') := Unlinked(files, dirs, p); Treelike(files', dirs')
  {
    var (files', dirs') := Unlinked(files, dirs, p);
    if p in files || p in dirs {
      NoFileAboveFile(files, dirs, p);
    }
    if p in files || EmptyDirectory(files, dirs, p) {
      DirectoriesWithin(files, dirs, files', dirs', p);
    }
  }

  /** Where a file was removed, one can be put again. */
  lemma UnlinkFrees(files: Disk, dirs: set<Path>, p: Path)
    requires Treelike(files, dirs) && p in files
    ensures var (files', dirs') := Unlinked(files, dirs, p); Free(files', dirs', p)
  {
    NoFileAboveFile(files, dirs, p);
    DirectoriesWithin(files, dirs, files - {p}, dirs + Above(p), p);
  }

  /** Writing one path leaves another as free as it was, if neither is below the other. */
  lemma WriteKeepsFree(files: Disk, dirs: set<Path>, p: Path, f: FileStat, q: Path)
    requires p != q && !Below(q, p) && !Below(p, q)
    ensures Free(files[p := f], Made(files, dirs, p), q) <==> Free(files, dirs, q)
  {
    var files', dirs' := files[p := f], Made(files, dirs, p);
    DirectoriesWithin(files, dirs, files', dirs', p);
    assert Above(q) * files'.Keys == Above(q) * files.Keys;
    if q in Directories(files, dirs) && q !in dirs {
      var r :| r in files.Keys + dirs && q in Above(r);
      assert r in files'.Keys + dirs';
    }
  }

  /** A directory stays when a file in it is removed. */
  lemma UnlinkLeavesDirectory(files: Disk, dirs: set<Path>, p: Path, d: Path)
    requires p in files && Below(p, d)
    ensures var (files', dirs') := Unlinked(files, dirs, p); !Free(files', dirs', d)
  {}

  // ---- The directory object ------------------------------------------------------------

  class Directory {
    var files: Disk
    var dirs: set<Path>

    constructor (files: Disk, dirs: set<Path>)
      ensures this.files == files && this.dirs == dirs
    {
      this.files, this.dirs := files, dirs;
    }

    /** Make the missing directories above p. */
    method MakeParents(p: Path) returns (ok: bool)
      modifies this
      ensures files == old(files)
      ensures ok <==> !FileAbove(files, p)
      ensures dirs == if ok then Made(files, old(dirs), p) else old(dirs)
    {
      if FileAbove(files, p) {
        return false;
      }
      dirs := Made(files, dirs, p);
      return true;
    }

    /** Put a file at p, by writing or by renaming; the directories above p exist. */
    method Put(p: Path, f: FileStat) returns (ok: bool)
      modifies this
      ensures dirs == old(dirs)
      ensures ok <==> p !in Directories(old(files), dirs)
      ensures files == if ok then old(files)[p := f] else old(files)
    {
      if p in Directories(files, dirs) {
        return false;
      }
      files := files[p := f];
      return true;
    }

    /** Remove a file or an empty directory. failed: there was something else. */
    method Remove(p: Path) returns (failed: bool)
      modifies this
      ensures (files, dirs) == Unlinked(old(files), old(dirs), p)
      ensures failed <==> CannotUnlink(old(files), old(dirs), p)
    {
      failed := CannotUnlink(files, dirs, p);
      if p in files {
        files, dirs := files - {p}, dirs + Above(p);
      } else if EmptyDirectory(files, dirs, p) {
        dirs := dirs - {p} + Above(p);
      }
    }
  }
}
