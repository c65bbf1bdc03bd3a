/** The file system as far as the application needs it: whole files by path, changed one
    atomic step at a time by a process that may die before any step. */
module Disks {
  import opened Paths

  /** A file's content; characters stand for bytes. */
  type Bytes = string
  type Files = map<Path, Bytes>

  /** `p` is the same in both: the same content, or no file at all. */
  ghost predicate Same(f: Files, g: Files, p: Path) {
    (p in f <==> p in g) && (p in f ==> f[p] == g[p])
  }

  lemma SameEverywhere(f: Files, g: Files)
    requires forall p :: Same(f, g, p)
    ensures f == g
  {
    assert forall p :: Same(f, g, p) ==> (p in f <==> p in g);
  }

  /** One system call on files: writing a whole small file or starting one, adding to a file,
      renaming (over what is there), unlinking (nothing, if nothing is there), or none of these. */
  datatype Change =
    | Write(path: Path, bytes: Bytes)
    | Append(path: Path, bytes: Bytes)
    | Rename(from: Path, to: Path)
    | Unlink(path: Path)
    | Nothing

  /** A rename needs its source, and adding to a file needs the file. */
  predicate Possible(files: Files, change: Change) {
    && (change.Rename? ==> change.from in files && change.from != change.to)
    && (change.Append? ==> change.path in files)
  }

  function After(files: Files, change: Change): Files
    requires Possible(files, change)
  {
    match change
    case Write(path, bytes) => files[path := bytes]
    case Append(path, bytes) => files[path := files[path] + bytes]
    case Rename(from, to) => (files - {from})[to := files[from]]
    case Unlink(path) => files - {path}
    case Nothing => files
  }

  /** How many more steps the running process takes before it dies. */
  datatype Life = Forever | DiesAfter(steps: nat)

  class Disk {
    var files: Files
    var dirs: set<Path>
    var life: Life
    /** Every state the files have been in, the present one last. */
    ghost var trace: seq<Files>
    /** The device a directory is on; a rename between devices fails with EXDEV. */
    const device: Path -> nat

    ghost predicate Valid()
      reads this
    {
      trace != [] && trace[|trace| - 1] == files
    }

    constructor (files: Files, dirs: set<Path>, device: Path -> nat)
      ensures Valid() && this.files == files && this.dirs == dirs && this.device == device
      ensures trace == [files] && life == Forever
    {
      this.files, this.dirs, this.device := files, dirs, device;
      life := Forever;
      trace := [files];
    }

    /** A process starts (again), with its own life before it. */
    method Start(life: Life)
      requires Valid()
      modifies this`life
      ensures Valid() && this.life == life
    {
      this.life := life;
    }

    /** The one place where files change, and where the process can die: before the call, or
        after all of it. */
    method Step(change: Change) returns (alive: bool)
      requires Valid() && Possible(files, change)
      modifies this`files, this`life, this`trace
      ensures Valid() && (life.Forever? <==> old(life).Forever?)
      ensures alive ==> files == After(old(files), change) && trace == old(trace) + [files]
      ensures !alive ==> files == old(files) && trace == old(trace) && life == old(life)
      ensures alive <==> old(life) != DiesAfter(0)
      ensures alive && old(life).DiesAfter? ==> life == DiesAfter(old(life).steps - 1)
    {
      if life == DiesAfter(0) {
        return false;
      }
      if life.DiesAfter? {
        life := DiesAfter(life.steps - 1);
      }
      files := After(files, change);
      trace := trace + [files];
      return true;
    }

    /** `path.mkdir(parents=True, exist_ok=True)`: the missing folders, from the top down, one
        call each. */
    method MakeDirs(p: Path) returns (alive: bool)
      requires Valid()
      modifies this
      ensures Valid() && (life.Forever? <==> old(life).Forever?) && files == old(files)
      ensures old(trace) <= trace && forall i :: |old(trace)| <= i < |trace| ==> trace[i] == files
      ensures alive ==> dirs == old(dirs) + Prefixes(p, |p|)
      ensures !alive ==> !old(life).Forever? && exists n: nat :: n <= |p| && dirs == old(dirs) + Prefixes(p, n)
    {
      var n := 0;
      alive := true;
      while n < |p|
        invariant n <= |p| && alive && Valid() && (life.Forever? <==> old(life).Forever?) && files == old(files)
        invariant old(trace) <= trace && forall i :: |old(trace)| <= i < |trace| ==> trace[i] == files
        invariant dirs == old(dirs) + Prefixes(p, n)
        decreases |p| - n
      {
        alive := Step(Nothing);
        if !alive { return; }
        dirs := dirs + {p[..n + 1]};
        PrefixesNext(p, n);
        n := n + 1;
      }
    }
  }

  /** The folders above `p[..n]`, but for the root, and that one. */
  function Prefixes(p: Path, n: nat): set<Path>
    requires n <= |p|
  {
    set i | 1 <= i <= n :: p[..i]
  }

  lemma PrefixesNext(p: Path, n: nat)
    requires n < |p|
    ensures Prefixes(p, n + 1) == Prefixes(p, n) + {p[..n + 1]}
  {
  }
}
