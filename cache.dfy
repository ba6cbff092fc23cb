/** CYLGame/Database.py, `WWWCache.safe_replace_cache`: the server's
    www cache is swapped for a fresh copy through a `_tmp` and an `_old`
    directory, and put back when the final rename fails. Directories are
    named trees; whether each of the three renames is refused is an input. */
module Cache {
  import opened Common

  /** The files of one directory tree, by relative path. */
  type Contents = map<string, string>

  /** The top-level directories that exist, by path. */
  type Disk = map<string, Contents>

  function TmpDir(root: string): string { root + "_tmp" }

  function OldDir(root: string): string { root + "_old" }

  /** The three paths the swap uses are pairwise different. */
  lemma SidePathsDistinct(root: string)
    ensures root != TmpDir(root) && root != OldDir(root) && TmpDir(root) != OldDir(root)
  {
    assert |TmpDir(root)| == |root| + 4;
    assert TmpDir(root)[|root| + 1] == 't' && OldDir(root)[|root| + 1] == 'o';
  }

  /** `shutil.copytree(src, dst)`: fails on a missing source or an
      existing destination. */
  function CopyTree(d: Disk, src: string, dst: string): (r: (Disk, Outcome<PyError>))
    ensures r.1.Pass? <==> src in d && dst !in d
    ensures r.1.Pass? ==> r.0 == d[dst := d[src]]
    ensures r.1.Fail? ==> r.0 == d
  {
    if src !in d then (d, Fail(FileNotFoundError))
    else if dst in d then (d, Fail(FileExistsError))
    else (d[dst := d[src]], Pass)
  }

  /** `shutil.rmtree(p)`: fails on a missing tree. */
  function RmTree(d: Disk, p: string): (r: (Disk, Outcome<PyError>))
    ensures r.1.Pass? <==> p in d
    ensures r.0 == d - {p}
  {
    if p !in d then (d, Fail(FileNotFoundError)) else (d - {p}, Pass)
  }

  /** `os.rename(src, dst)`: fails on a missing source, on an existing
      destination, or when the file system refuses (`fails`). */
  function Rename(d: Disk, src: string, dst: string, fails: bool): (r: (Disk, Outcome<PyError>))
    ensures r.1.Pass? <==> src in d && dst !in d && !fails
    ensures r.1.Pass? ==> src != dst && r.0 == (d - {src})[dst := d[src]]
    ensures r.1.Fail? ==> r.0 == d
  {
    if src !in d then (d, Fail(FileNotFoundError))
    else if dst in d then (d, Fail(OSError))
    else if fails then (d, Fail(OSError))
    else ((d - {src})[dst := d[src]], Pass)
  }

  /** Whether the file system refuses each rename of the swap: the root
      onto `_old`, `_tmp` onto the root, and the rollback of `_old` onto the
      root. */
  datatype Refusals = Refusals(move: bool, swap: bool, restore: bool)

  /** The whole of `safe_replace_cache(www_dir)`, step by step. */
  function SafeReplace(d: Disk, root: string, www: string, f: Refusals): (Disk, Outcome<PyError>)
  {
    if root !in d then CopyTree(d, www, root)
    else
      var d1 := if TmpDir(root) in d then RmTree(d, TmpDir(root)).0 else d;
      var d2 := if OldDir(root) in d1 then RmTree(d1, OldDir(root)).0 else d1;
      var (d3, copied) := CopyTree(d2, www, TmpDir(root));
      if copied.Fail? then (d3, copied)
      else
        var (d4, moved) := Rename(d3, root, OldDir(root), f.move);
        if moved.Fail? then (d4, moved)
        else
          var (d5, swapped) := Rename(d4, TmpDir(root), root, f.swap);
          if swapped.Fail? then
            var (d6, restored) := Rename(d5, OldDir(root), root, f.restore);
            (d6, if restored.Fail? then restored else swapped)
          else RmTree(d5, OldDir(root))
  }

  /** Paths other than the root and its two side directories. */
  predicate Elsewhere(p: string, root: string)
  {
    p != root && p != TmpDir(root) && p != OldDir(root)
  }

  /** With no cache yet, the new cache is a plain copy of `www_dir`. */
  lemma FirstInstall(d: Disk, root: string, www: string, f: Refusals)
    requires root !in d && www in d
    ensures SafeReplace(d, root, www, f) == (d[root := d[www]], Pass)
  {
  }

  /** On success the root holds what `www_dir` held, the side directories
      are gone and every other directory is as it was. */
  lemma SwapSucceeds(d: Disk, root: string, www: string, restore: bool)
    requires root in d && www in d && www != TmpDir(root) && www != OldDir(root)
    ensures var (r, o) := SafeReplace(d, root, www, Refusals(false, false, restore));
      && o == Pass
      && root in r && r[root] == d[www]
      && TmpDir(root) !in r && OldDir(root) !in r
      && forall p :: Elsewhere(p, root) ==> (p in r <==> p in d) && (p in d ==> r[p] == d[p])
  {
    SidePathsDistinct(root);
  }

  /** When the final rename fails, the old cache is renamed back, so the root
      holds exactly what it held before, the copy stays in `_tmp`, and the
      error is raised again. */
  lemma SwapRollsBack(d: Disk, root: string, www: string)
    requires root in d && www in d && www != TmpDir(root) && www != OldDir(root)
    ensures var (r, o) := SafeReplace(d, root, www, Refusals(false, true, false));
      && o == Fail(OSError)
      && root in r && r[root] == d[root]
      && TmpDir(root) in r && r[TmpDir(root)] == d[www]
      && OldDir(root) !in r
      && forall p :: Elsewhere(p, root) ==> (p in r <==> p in d) && (p in d ==> r[p] == d[p])
  {
    SidePathsDistinct(root);
  }

  /** A refused first rename leaves the root where it was, with the copy
      in `_tmp`, and raises. */
  lemma MoveRefused(d: Disk, root: string, www: string, swap: bool, restore: bool)
    requires root in d && www in d && www != TmpDir(root) && www != OldDir(root)
    ensures var (r, o) := SafeReplace(d, root, www, Refusals(true, swap, restore));
      && o == Fail(OSError)
      && root in r && r[root] == d[root]
      && TmpDir(root) in r && r[TmpDir(root)] == d[www]
      && OldDir(root) !in r
  {
    SidePathsDistinct(root);
  }

  /** When both the swap and the rollback are refused, the root is missing:
      the old cache is left in `_old`, the copy in `_tmp`, and the
      rollback's error is raised. */
  lemma RollbackRefused(d: Disk, root: string, www: string)
    requires root in d && www in d && www != TmpDir(root) && www != OldDir(root)
    ensures var (r, o) := SafeReplace(d, root, www, Refusals(false, true, true));
      && o == Fail(OSError)
      && root !in r
      && OldDir(root) in r && r[OldDir(root)] == d[root]
      && TmpDir(root) in r && r[TmpDir(root)] == d[www]
  {
    SidePathsDistinct(root);
  }

  /** Whatever happens, an existing cache is never lost: it is at the root,
      or, only when the rollback itself is refused, in `_old`. When the copy
      cannot be made the root is untouched. */
  lemma RootSurvives(d: Disk, root: string, www: string, f: Refusals)
    requires root in d
    ensures var (r, o) := SafeReplace(d, root, www, f);
      && (root in r || (OldDir(root) in r && r[OldDir(root)] == d[root]))
      && (root !in r ==> f.restore && o.Fail?)
      && (www !in d || www == TmpDir(root) || www == OldDir(root) ==> o == Fail(FileNotFoundError) && r[root] == d[root])
  {
    SidePathsDistinct(root);
  }

  /** The directory tree the cache lives in. */
  class FileSystem {
    var dirs: Disk

    constructor (dirs: Disk)
      ensures this.dirs == dirs
    {
      this.dirs := dirs;
    }

    method CopyTreeOp(src: string, dst: string) returns (o: Outcome<PyError>)
      modifies this
      ensures (dirs, o) == CopyTree(old(dirs), src, dst)
    {
      if src !in dirs {
        return Fail(FileNotFoundError);
      }
      if dst in dirs {
        return Fail(FileExistsError);
      }
      dirs := dirs[dst := dirs[src]];
      return Pass;
    }

    method RmTreeOp(p: string) returns (o: Outcome<PyError>)
      modifies this
      ensures (dirs, o) == RmTree(old(dirs), p)
    {
      if p !in dirs {
        return Fail(FileNotFoundError);
      }
      dirs := dirs - {p};
      return Pass;
    }

    method RenameOp(src: string, dst: string, fails: bool) returns (o: Outcome<PyError>)
      modifies this
      ensures (dirs, o) == Rename(old(dirs), src, dst, fails)
    {
      if src !in dirs {
        return Fail(FileNotFoundError);
      }
      if dst in dirs || fails {
        return Fail(OSError);
      }
      dirs := (dirs - {src})[dst := dirs[src]];
      return Pass;
    }
  }

  class WWWCache {
    var rootDir: string

    constructor (rootDir: string)
      ensures this.rootDir == rootDir
    {
      this.rootDir := rootDir;
    }

    /** `safe_replace_cache(www_dir)`, one file-system call at a time. */
    method SafeReplaceCache(fs: FileSystem, wwwDir: string, f: Refusals) returns (o: Outcome<PyError>)
      modifies fs
      ensures (fs.dirs, o) == SafeReplace(old(fs.dirs), rootDir, wwwDir, f)
    {
      if rootDir !in fs.dirs {
        o := fs.CopyTreeOp(wwwDir, rootDir);
        return;
      }
      var tmpDir := TmpDir(rootDir);
      var oldDir := OldDir(rootDir);
      if tmpDir in fs.dirs {
        var _ := fs.RmTreeOp(tmpDir);
      }
      if oldDir in fs.dirs {
        var _ := fs.RmTreeOp(oldDir);
      }
      o := fs.CopyTreeOp(wwwDir, tmpDir);
      if o.Fail? {
        return;
      }
      o := fs.RenameOp(rootDir, oldDir, f.move);
      if o.Fail? {
        return;
      }
      o := fs.RenameOp(tmpDir, rootDir, f.swap);
      if o.Fail? {
        var restored := fs.RenameOp(oldDir, rootDir, f.restore);
        if restored.Fail? {
          o := restored;
        }
        return;
      }
      o := fs.RmTreeOp(oldDir);
    }
  }
}
