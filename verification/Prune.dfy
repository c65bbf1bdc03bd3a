/** Removing the folders an import or a delete left empty
    (backend/app/library/organizer.py, `prune_empty_dirs`). */
module Prune {
  import opened Paths
  import opened Disks

  /** `current.rmdir()` works: the folder is there and holds nothing. */
  ghost predicate Removable(files: Files, dirs: set<Path>, d: Path) {
    && d in dirs
    && (forall q :: q in files && q != [] ==> Parent(q) != d)
    && (forall e :: e in dirs && e != [] ==> Parent(e) != d)
  }

  /** The folder `path[..n]` is there and holds at most the next folder of `path`. */
  ghost predicate OnlyPath(files: Files, dirs: set<Path>, path: Path, n: nat)
    requires n <= |path|
  {
    && path[..n] in dirs
    && (forall q :: q in files && q != [] ==> Parent(q) != path[..n])
    && (forall e :: e in dirs && e != [] && Parent(e) == path[..n] ==> n < |path| && e == path[..n + 1])
  }

  /** What is removed: every folder of `path` strictly below `root` from which on down nothing
      but `path` itself is left. */
  ghost predicate Prunable(files: Files, dirs: set<Path>, path: Path, root: Path, d: Path) {
    && root < d <= path
    && forall n :: |d| <= n <= |path| ==> OnlyPath(files, dirs, path, n)
  }

  method PruneEmptyDirs(disk: Disk, directory: Path, root: Path)
    modifies disk`dirs
    ensures disk.dirs <= old(disk.dirs)
    ensures forall d :: d in old(disk.dirs) - disk.dirs <==>
      Prunable(disk.files, old(disk.dirs), Resolve(directory), Resolve(root), d)
  {
    hide OnlyPath, Removable, Resolve;
    var path, stop := Resolve(directory), Resolve(root);
    var current := path;
    ghost var dirs := disk.dirs;
    while current != stop && Under(current, stop)
      invariant current <= path
      invariant disk.dirs <= dirs
      invariant forall d :: d in dirs - disk.dirs <==> |current| < |d| && Prunable(disk.files, dirs, path, stop, d)
      invariant forall n :: |current| < n <= |path| ==> OnlyPath(disk.files, dirs, path, n) && path[..n] !in disk.dirs
      invariant stop <= path && current != path ==> stop <= current
      decreases |current|
    {
      assert current == path[..|current|];
      var empty := CanRemove(disk, current);
      RemovableIsOnlyPath(disk.files, dirs, disk.dirs, path, |current|);
      if !empty {
        return;
      }
      disk.dirs := disk.dirs - {current};
      PrunableHere(disk.files, dirs, path, stop, current);
      assert Parent(current) == path[..|current| - 1];
      current := Parent(current);
    }
  }

  /** With everything below `current` prunable, `current` and only it is next. */
  lemma PrunableHere(files: Files, dirs: set<Path>, path: Path, stop: Path, current: Path)
    requires stop < current <= path && OnlyPath(files, dirs, path, |current|)
    requires forall n :: |current| < n <= |path| ==> OnlyPath(files, dirs, path, n)
    ensures forall d :: |d| == |current| && Prunable(files, dirs, path, stop, d) <==> d == current
  {
    hide OnlyPath;
    assert current == path[..|current|];
  }

  method CanRemove(disk: Disk, d: Path) returns (empty: bool)
    ensures empty <==> Removable(disk.files, disk.dirs, d)
    ensures empty ==> d in disk.dirs
  {
    empty := d in disk.dirs
      && (forall q <- disk.files.Keys :: q != [] ==> Parent(q) != d)
      && (forall e <- disk.dirs :: e != [] ==> Parent(e) != d);
  }

  /** A folder can go once the folders of the path below it have gone, exactly when it held
      nothing else to begin with. */
  lemma RemovableIsOnlyPath(files: Files, dirs: set<Path>, left: set<Path>, path: Path, n: nat)
    requires n <= |path| && left <= dirs
    requires forall d :: d in dirs - left ==> n < |d| && d <= path
    requires n < |path| ==> path[..n + 1] !in left
    ensures Removable(files, left, path[..n]) <==> OnlyPath(files, dirs, path, n)
  {
    if Removable(files, left, path[..n]) {
      forall e | e in dirs && e != [] && Parent(e) == path[..n] ensures n < |path| && e == path[..n + 1] {
        assert e !in left;
        assert e == path[..|e|];
      }
    }
    if OnlyPath(files, dirs, path, n) {
      assert path[..n] in left;
    }
  }
}
