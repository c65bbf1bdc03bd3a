/** Moving a finished job into the completed folder (backend/app/library/organizer.py). */
module Organizer {
  import opened Wrappers
  import opened Text
  import opened Paths
  import opened Disks
  import Naming

  const MARKER := "organize_target"
  const PARTIAL_SUFFIX := ".fetcharr-partial"
  const REPLACED_DIR := "_replaced"
  const CHUNK: nat := 0x10_0000

  // ------------------------------------------------------------------ moving one file

  function Partial(destination: Path): Path {
    WithName(destination, "." + Name(destination) + PARTIAL_SUFFIX)
  }

  datatype MoveOutcome = Moved | Died | Missing

  /** What the files are once `Move` is done. */
  function MoveResult(f: Files, source: Path, destination: Path): Files {
    var partial := Partial(destination);
    if source !in f then f - {partial}
    else if destination in f && |f[destination]| == |f[source]| then f - {source, partial}
    else (f - {source, partial})[destination := f[source]]
  }

  /** `g` is a state in which a crash can leave a `Move` that started at `f`: the destination
      is what it was or the whole new file, and the source goes only after that. */
  ghost predicate Midway(f: Files, source: Path, destination: Path, g: Files) {
    && (forall q :: q != source && q != destination && q != Partial(destination) ==> Same(f, g, q))
    && (source !in g ==> Partial(destination) !in g || (source !in f && Same(f, g, Partial(destination))))
    && (|| (Same(f, g, source) && Same(f, g, destination))
        || (source in f && destination in g && g[destination] == f[source] && (source in g ==> g[source] == f[source]))
        || (source in f && destination in f && |f[destination]| == |f[source]| && source !in g
            && Same(f, g, destination)))
  }

  /** `_copy`: the partial file grows chunk by chunk, then is forced to disk. */
  method Copy(disk: Disk, source: Path, partial: Path) returns (alive: bool)
    requires disk.Valid() && source in disk.files && source != partial
    modifies disk
    ensures disk.Valid() && (disk.life.Forever? <==> old(disk.life).Forever?)
    ensures old(disk.trace) <= disk.trace
    ensures forall i :: |old(disk.trace)| <= i < |disk.trace| ==>
      disk.trace[i] - {partial} == old(disk.files) - {partial}
    ensures disk.files - {partial} == old(disk.files) - {partial}
    ensures alive ==> disk.files == old(disk.files)[partial := old(disk.files)[source]]
    ensures !alive ==> !disk.life.Forever?
  {
    var bytes := disk.files[source];
    alive := disk.Step(Write(partial, ""));
    if !alive { return; }
    var i := 0;
    while i < |bytes|
      invariant i <= |bytes| && disk.Valid() && (disk.life.Forever? <==> old(disk.life).Forever?)
      invariant old(disk.trace) <= disk.trace
      invariant disk.files == old(disk.files)[partial := bytes[..i]]
      invariant forall k :: |old(disk.trace)| <= k < |disk.trace| ==>
        disk.trace[k] - {partial} == old(disk.files) - {partial}
    {
      var next := if |bytes| - i <= CHUNK then |bytes| else i + CHUNK;
      alive := disk.Step(Append(partial, bytes[i..next]));
      if !alive { return; }
      assert bytes[..i] + bytes[i..next] == bytes[..next];
      i := next;
    }
    assert bytes[..i] == bytes;
    alive := disk.Step(Nothing);
  }

  /** The states of a move between devices, from a `g` without the partial file. */
  ghost predicate Across(g: Files, source: Path, destination: Path, h: Files)
    requires source in g
  {
    || h - {Partial(destination)} == g - {Partial(destination)}
    || h == g[destination := g[source]]
    || h == (g - {source})[destination := g[source]]
  }

  /** The branch of `_move` for a rename that fails with EXDEV. */
  method MoveAcross(disk: Disk, source: Path, destination: Path) returns (alive: bool)
    requires disk.Valid() && source in disk.files && Partial(destination) !in disk.files
    requires source != destination && source != Partial(destination) && destination != Partial(destination)
    modifies disk
    ensures disk.Valid() && (disk.life.Forever? <==> old(disk.life).Forever?)
    ensures old(disk.trace) <= disk.trace && (!alive ==> !disk.life.Forever?)
    ensures forall i :: |old(disk.trace)| <= i < |disk.trace| ==>
      Across(old(disk.files), source, destination, disk.trace[i])
    ensures Across(old(disk.files), source, destination, disk.files)
    ensures alive ==> disk.files == (old(disk.files) - {source})[destination := old(disk.files)[source]]
  {
    hide Partial;
    ghost var g := disk.files;
    var partial := Partial(destination);
    alive := Copy(disk, source, partial);
    if !alive { return; }
    alive := disk.Step(Rename(partial, destination));
    if !alive { return; }
    assert g[partial := g[source]] - {partial} == g;
    alive := disk.Step(Unlink(source));
    assert alive ==> disk.files == (g - {source})[destination := g[source]];
  }

  /** `_move`. */
  method Move(disk: Disk, source: Path, destination: Path) returns (r: MoveOutcome)
    requires disk.Valid() && source != destination && source != Partial(destination)
    requires destination != Partial(destination)
    modifies disk
    ensures disk.Valid() && (disk.life.Forever? <==> old(disk.life).Forever?)
    ensures old(disk.trace) <= disk.trace
    ensures forall i :: |old(disk.trace)| <= i < |disk.trace| ==>
      Midway(old(disk.files), source, destination, disk.trace[i])
    ensures Midway(old(disk.files), source, destination, disk.files)
    ensures r.Moved? ==> disk.files == MoveResult(old(disk.files), source, destination)
    ensures r.Died? ==> !disk.life.Forever?
    ensures r.Missing? ==> disk.files == old(disk.files) - {Partial(destination)}
    ensures !r.Died? ==> (r.Missing? <==> source !in old(disk.files) && destination !in old(disk.files))
  {
    hide Partial, Midway, MoveResult, Across, Same;
    ghost var f := disk.files;
    var partial := Partial(destination);
    OnlyPartial(f, source, destination, f);
    var alive := disk.Step(Unlink(partial));
    if !alive { return Died; }
    OnlyPartial(f, source, destination, disk.files);
    ghost var g := disk.files;
    assert g == f - {partial};
    WithoutPartial(f, source, destination);
    if source !in disk.files {
      NothingLeft(f, source, destination);
      return if destination in disk.files then Moved else Missing;
    }
    if destination in disk.files && |disk.files[destination]| == |disk.files[source]| {
      SameSizeStates(f, source, destination);
      alive := disk.Step(Unlink(source));
      return if alive then Moved else Died;
    }
    RenameStates(f, source, destination);
    if disk.device(Parent(source)) == disk.device(Parent(destination)) {
      alive := disk.Step(Rename(source, destination));
      return if alive then Moved else Died;
    }
    ghost var start := |disk.trace|;
    alive := MoveAcross(disk, source, destination);
    forall i | start <= i < |disk.trace| ensures Midway(f, source, destination, disk.trace[i]) {
      AcrossIsMidway(f, source, destination, disk.trace[i]);
    }
    AcrossIsMidway(f, source, destination, disk.files);
    return if alive then Moved else Died;
  }

  lemma WithoutPartial(f: Files, source: Path, destination: Path)
    requires source != Partial(destination) && destination != Partial(destination)
    ensures var g := f - {Partial(destination)};
      && (source in g <==> source in f) && (destination in g <==> destination in f)
      && (source in f ==> g[source] == f[source]) && (destination in f ==> g[destination] == f[destination])
      && Partial(destination) !in g
  {
    hide Partial;
  }

  lemma NothingLeft(f: Files, source: Path, destination: Path)
    requires source !in f
    ensures MoveResult(f, source, destination) == f - {Partial(destination)}
  {
  }

  /** The shortcut drops the source, whatever the file of the same size holds. */
  lemma SameSizeStates(f: Files, source: Path, destination: Path)
    requires source in f && destination in f && |f[destination]| == |f[source]|
    requires source != destination && source != Partial(destination) && destination != Partial(destination)
    ensures var g := f - {Partial(destination)} - {source};
      Midway(f, source, destination, g) && MoveResult(f, source, destination) == g
  {
    hide Partial;
    assert f - {Partial(destination)} - {source} == f - {source, Partial(destination)};
  }

  lemma RenameStates(f: Files, source: Path, destination: Path)
    requires source in f && !(destination in f && |f[destination]| == |f[source]|)
    requires source != destination && source != Partial(destination) && destination != Partial(destination)
    ensures var h := (f - {Partial(destination)} - {source})[destination := f[source]];
      Midway(f, source, destination, h) && MoveResult(f, source, destination) == h
  {
    hide Partial;
    assert f - {Partial(destination)} - {source} == f - {source, Partial(destination)};
  }

  lemma CopiedState(f: Files, source: Path, destination: Path)
    requires source in f
    requires source != destination && source != Partial(destination) && destination != Partial(destination)
    ensures Midway(f, source, destination, (f - {Partial(destination)})[destination := f[source]])
  {
    hide Partial;
  }

  lemma AcrossIsMidway(f: Files, source: Path, destination: Path, h: Files)
    requires source in f && source in f - {Partial(destination)}
    requires !(destination in f && |f[destination]| == |f[source]|)
    requires source != destination && source != Partial(destination) && destination != Partial(destination)
    requires Across(f - {Partial(destination)}, source, destination, h)
    ensures Midway(f, source, destination, h)
  {
    hide Partial, Midway, MoveResult;
    var partial := Partial(destination);
    CopiedState(f, source, destination);
    RenameStates(f, source, destination);
    if h - {partial} == f - {partial} - {partial} {
      assert f - {partial} - {partial} == f - {partial};
      OnlyPartial(f, source, destination, h);
    }
  }

  lemma OnlyPartial(f: Files, source: Path, destination: Path, g: Files)
    requires source != Partial(destination) && destination != Partial(destination)
    requires source in f || Partial(destination) !in g || g == f
    requires g - {Partial(destination)} == f - {Partial(destination)}
    ensures Midway(f, source, destination, g)
  {
    var p := Partial(destination);
    forall q | q != p ensures Same(f, g, q) {
      assert q in f - {p} <==> q in f;
      assert q in g - {p} <==> q in g;
      if q in f { assert (f - {p})[q] == f[q]; assert (g - {p})[q] == g[q]; }
    }
    assert Same(f, g, source);
  }

  /** The same-size shortcut takes equal length for equal content. A finished move leaves the
      source's bytes at the destination exactly when no other file of that length was there. */
  lemma MoveKeepsBytes(f: Files, source: Path, destination: Path)
    requires source in f && source != destination && destination != Partial(destination)
    ensures var g := MoveResult(f, source, destination);
      source !in g && (destination in g && g[destination] == f[source] <==>
        !(destination in f && |f[destination]| == |f[source]| && f[destination] != f[source]))
  {
  }

  /** Two files of three bytes: the new one is gone and nothing holds its bytes. */
  lemma SameSizeLosesBytes()
    ensures var f: Files := map[["job", "v.srt"] := "new", ["tv", "v.srt"] := "old"];
      var g := MoveResult(f, ["job", "v.srt"], ["tv", "v.srt"]);
      forall q :: q in g ==> g[q] != "new"
  {
    var partial := Partial(["tv", "v.srt"]);
    PartialName(["tv", "v.srt"]);
    assert partial != ["tv", "v.srt"];
    hide Partial;
  }

  // ------------------------------------------------------------------ where it goes

  datatype Policy = Ask | Replace | KeepBoth

  datatype Sidecar = Sidecar(path: Path, lang: string)

  /** What probing the video and naming it came to: `completed_dir / build_path(...)`. */
  datatype Named = NotAVideo | NoName | Named(path: Path)

  /** The arguments of `organize`, the same for every run of one job. */
  datatype Job = Job(
    dir: Path, video: Path, sidecars: seq<Sidecar>, named: Named, isOther: bool, collisionPolicy: Policy,
    completed: Path, incomplete: Path)
  {
    function Marker(): Path { dir + [MARKER] }
    function MarkerTemp(): Path { dir + [MARKER + ".tmp"] }
    function Aside(): Path { incomplete + [REPLACED_DIR, Name(dir)] }
  }

  /** A name that cannot be taken for a partial file's; every rendered name is one. */
  predicate Plain(name: string) {
    IsComponent(name) && name[0] != '.'
  }

  /** The folders do not overlap: no file of the job lies in the completed folder or in the
      folder for replaced files, and neither of these lies in the other. */
  ghost predicate Placed(job: Job) {
    && IsCanonical(job.completed)
    && (job.named.Named? ==>
          Plain(Name(job.named.path)) && forall i :: 0 <= i < |job.named.path| ==> '/' !in job.named.path[i])
    && (forall k :: 0 <= k <= |job.sidecars| ==> Outside(job, Source(job, k)))
    && Outside(job, job.Marker()) && Outside(job, job.MarkerTemp())
    && !Under(job.completed, job.Aside()) && !Under(job.Aside(), job.completed)
  }

  /** The source of the `k`th move: the sidecars in order, then the video. */
  function Source(job: Job, k: nat): Path
    requires k <= |job.sidecars|
  {
    if k < |job.sidecars| then job.sidecars[k].path else job.video
  }

  ghost predicate Outside(job: Job, p: Path) {
    !Under(p, job.completed) && !Under(p, job.Aside())
  }

  /** `_guard`: the destination with its folder resolved, if that lies in the completed folder. */
  function Guard(destination: Path, completed: Path): Option<Path> {
    var parent := Resolve(Parent(destination));
    if Under(parent, Resolve(completed)) then Some(parent + [Name(destination)]) else None
  }

  /** Whatever `..` a destination holds, what is accepted lies in the completed folder, in a
      folder that is its own resolution, under the name asked for; accepting it again changes
      nothing. */
  lemma AcceptedIsInside(destination: Path, completed: Path)
    requires Guard(destination, completed).Some? && forall i :: 0 <= i < |destination| ==> '/' !in destination[i]
    ensures var p := Guard(destination, completed).value;
      && Under(p, Resolve(completed)) && p != Resolve(completed) && Name(p) == Name(destination)
      && IsCanonical(Parent(p)) && Guard(p, completed) == Some(p)
  {
    var p := Guard(destination, completed).value;
    var folder := Resolve(Parent(destination));
    ResolvedIsCanonical(Parent(destination));
    ResolveCanonical(folder);
    assert Parent(p) == folder;
  }

  /** A destination whose folder needs no resolving is accepted as it is, or lies outside. */
  lemma RejectedIsOutside(destination: Path, completed: Path)
    requires destination != [] && IsCanonical(Parent(destination)) && IsCanonical(completed)
    ensures Guard(destination, completed) == if Under(Parent(destination), completed) then Some(destination) else None
  {
    ResolveCanonical(Parent(destination));
    ResolveCanonical(completed);
    assert Parent(destination) + [Name(destination)] == destination;
  }

  /** `_numbered`. */
  function Numbered(destination: Path, number: nat): Path {
    var name := Name(destination);
    WithName(destination, Stem(name) + " (" + Decimal(number) + ")" + Suffix(name))
  }

  lemma NumberedDiffers(destination: Path, a: nat, b: nat)
    requires Numbered(destination, a) == Numbered(destination, b)
    ensures a == b
  {
    var stem, suffix := Stem(Name(destination)), Suffix(Name(destination));
    var left, right := stem + " (", ")" + suffix;
    assert Name(Numbered(destination, a)) == left + Decimal(a) + right;
    assert Name(Numbered(destination, b)) == left + Decimal(b) + right;
    MiddleEqual(left, Decimal(a), Decimal(b), right);
    DecimalRoundTrip(a);
    DecimalRoundTrip(b);
  }

  lemma MiddleEqual(left: string, a: string, b: string, right: string)
    requires left + a + right == left + b + right
    ensures a == b
  {
    var s := left + a + right;
    assert |left + a + right| == |left| + |a| + |right|;
    assert |left + b + right| == |left| + |b| + |right|;
    assert a == s[|left|..|left| + |a|];
    assert b == s[|left|..|left| + |b|];
  }

  /** The number KEEP_BOTH settles on: the first from 1 whose name is not taken. */
  ghost predicate IsLeastFree(f: Files, destination: Path, number: nat) {
    && number >= 1 && Numbered(destination, number) !in f
    && forall m: nat :: 1 <= m < number ==> Numbered(destination, m) in f
  }

  lemma LeastFreeUnique(f: Files, destination: Path, a: nat, b: nat)
    requires IsLeastFree(f, destination, a) && IsLeastFree(f, destination, b)
    ensures a == b
  {
  }

  /** The KEEP_BOTH search. It ends in any directory: each number tried names another file. */
  method KeepBothName(disk: Disk, destination: Path) returns (candidate: Path, number: nat)
    ensures IsLeastFree(disk.files, destination, number) && candidate == Numbered(destination, number)
  {
    hide Numbered;
    number := 1;
    candidate := Numbered(destination, number);
    ghost var taken: set<Path> := {};
    while candidate in disk.files
      invariant number >= 1 && candidate == Numbered(destination, number)
      invariant forall m: nat :: 1 <= m < number ==> Numbered(destination, m) in disk.files
      invariant taken <= disk.files.Keys && |taken| == number - 1
      invariant forall p :: p in taken ==> exists m: nat :: m < number && p == Numbered(destination, m)
      decreases |disk.files| - number
    {
      if candidate in taken {
        var m: nat :| m < number && candidate == Numbered(destination, m);
        NumberedDiffers(destination, m, number);
      }
      CardinalityBound(taken + {candidate}, disk.files.Keys);
      taken := taken + {candidate};
      number := number + 1;
      candidate := Numbered(destination, number);
    }
  }

  lemma {:induction false} CardinalityBound(a: set<Path>, b: set<Path>)
    requires a <= b
    ensures |a| <= |b|
  {
    if a != {} {
      var x :| x in a;
      CardinalityBound(a - {x}, b - {x});
    }
  }

  // --------------------------------------------------------------- REPLACE: move aside

  /** The name test REPLACE uses: everything that shares the stem, up to a dot. */
  predicate SharesStem(destination: Path, existing: Path) {
    Parent(existing) == Parent(destination) && existing != []
    && Stem(Name(destination)) + "." <= Name(existing)
  }

  /** For a destination with an extension, what its name becomes: numbered, while it is being
      copied, and which names REPLACE takes to share its stem. */
  lemma NamesSpelled(folder: Path, base: string, ext: string, number: nat, existing: Path)
    requires base != "" && ext != "" && '.' !in ext
    ensures var destination := folder + [base + "." + ext];
      && Numbered(destination, number) == folder + [base + " (" + Decimal(number) + ")" + ("." + ext)]
      && Partial(destination) == folder + ["." + (base + "." + ext) + ".fetcharr-partial"]
      && (SharesStem(destination, existing) <==> exists rest: string :: existing == folder + [base + "." + rest])
  {
    hide Stem, Suffix, Decimal;
    var name := base + "." + ext;
    var destination := folder + [name];
    assert base + ("." + ext) == name;
    ExtensionIsSuffix(base, "." + ext);
    assert Parent(destination) == folder && Name(destination) == name;
    var stem := base + ".";
    if SharesStem(destination, existing) {
      assert Name(existing) == stem + Name(existing)[|stem|..];
      assert existing == folder + [base + "." + Name(existing)[|stem|..]] by { IsItsName(existing); }
    }
    if rest: string :| existing == folder + [base + "." + rest] {
      assert Parent(existing) == folder && Name(existing) == stem + rest;
    }
  }

  /** The video at the destination itself is among them exactly when its name has a suffix;
      without one REPLACE leaves it where the new video is about to go. */
  lemma DestinationSharesItsStem(destination: Path)
    requires destination != []
    ensures SharesStem(destination, destination) <==> Suffix(Name(destination)) != ""
  {
    StemAndSuffix(Name(destination));
  }

  /** A download always has a suffix, and the destination takes it over: so REPLACE's test does
      cover the old video, whatever the template made of the rest of the name. */
  lemma ReplaceCoversOldVideo(folder: Path, base: string, video: string)
    requires base != "" && Suffix(video) != ""
    ensures var destination := folder + [base + Suffix(video)]; SharesStem(destination, destination)
  {
    SuffixIsExtension(video);
    ExtensionIsSuffix(base, Suffix(video));
    DestinationSharesItsStem(folder + [base + Suffix(video)]);
  }

  /** What a finished REPLACE leaves: every file that shares the stem is in the aside folder
      under its own name with its bytes, and every other file is untouched. */
  ghost predicate MovedAside(f: Files, destination: Path, aside: Path, g: Files) {
    && (forall q :: q in f && SharesStem(destination, q) ==>
          q !in g && aside + [Name(q)] in g && g[aside + [Name(q)]] == f[q])
    && (forall q :: !SharesStem(destination, q) && Parent(q) != aside ==> Same(f, g, q))
    && (forall q :: q in g && q !in f ==> Parent(q) == aside)
  }

  /** Nothing in the aside folder yet, as before a job's first run. */
  ghost predicate AsideFree(f: Files, aside: Path) {
    forall q :: q in f ==> !Under(q, aside)
  }

  ghost predicate IsListing(f: Files, folder: Path, listing: seq<Path>) {
    && (forall q :: q in listing <==> q in f && q != [] && Parent(q) == folder)
    && (forall i, j :: 0 <= i < j < |listing| ==> listing[i] != listing[j])
  }

  /** The loop of REPLACE over `destination.parent.iterdir()`, in whatever order it lists. */
  method MoveAside(disk: Disk, destination: Path, aside: Path, listing: seq<Path>) returns (alive: bool)
    requires disk.Valid() && IsListing(disk.files, Parent(destination), listing)
    requires Plain(Name(destination)) && Apart(destination, aside)
    modifies disk
    ensures disk.Valid() && (disk.life.Forever? <==> old(disk.life).Forever?)
    ensures old(disk.trace) <= disk.trace
    ensures alive ==> AsideFree(old(disk.files), aside) ==>
      MovedAside(old(disk.files), destination, aside, disk.files)
    ensures !alive ==> !disk.life.Forever?
    ensures forall q :: !SharesStem(destination, q) && !Under(q, aside) ==> Same(old(disk.files), disk.files, q)
  {
    hide MoveResult, Midway, SharesStem, Partial, Apart, Plain, AsideFree, AsideProgress, Under, Parent, MovedAside;
    ghost var f, done := disk.files, {};
    if AsideFree(f, aside) { AsideStart(f, aside); }
    var i := 0;
    while i < |listing|
      invariant i <= |listing| && disk.Valid() && (disk.life.Forever? <==> old(disk.life).Forever?)
      invariant old(disk.trace) <= disk.trace
      invariant done == set q | q in listing[..i] && SharesStem(destination, q)
      invariant AsideFree(f, aside) ==> AsideProgress(f, aside, done, disk.files)
      invariant forall q :: !SharesStem(destination, q) && !Under(q, aside) ==> Same(f, disk.files, q)
    {
      var existing := listing[i];
      assert listing[..i + 1] == listing[..i] + [existing];
      assert existing in listing;
      if SharesStem(destination, existing) {
        AsidePaths(destination, aside, existing);
        ghost var g := disk.files;
        assert existing !in done;
        if AsideFree(f, aside) { AsideUntouched(f, destination, aside, done, g, existing); }
        var outcome := Move(disk, existing, aside + [Name(existing)]);
        MoveFrame(g, existing, aside + [Name(existing)], disk.files);
        forall q | !SharesStem(destination, q) && !Under(q, aside) ensures Same(f, disk.files, q) {
          assert Same(f, g, q) && Same(g, disk.files, q);
        }
        if outcome.Died? { return false; }
        if AsideFree(f, aside) {
          AsideStep(f, destination, aside, done, existing, g, disk.files);
        }
        done := done + {existing};
      }
      i := i + 1;
    }
    assert listing[..i] == listing;
    forall q | q in f && SharesStem(destination, q) ensures q in done {
      SharesFolder(destination, q);
    }
    if AsideFree(f, aside) {
      AsideDone(f, destination, aside, done, disk.files);
    }
    return true;
  }

  /** The destination's folder and the aside folder do not overlap. */
  ghost predicate Apart(destination: Path, aside: Path) {
    !Under(Parent(destination), aside) && !Under(aside, Parent(destination))
  }

  lemma MoveFrame(f: Files, source: Path, destination: Path, g: Files)
    requires Midway(f, source, destination, g)
    ensures forall q :: q != source && q != destination && q != Partial(destination) ==> Same(f, g, q)
  {
  }

  lemma AsidePaths(destination: Path, aside: Path, existing: Path)
    requires SharesStem(destination, existing) && Apart(destination, aside)
    ensures var target := aside + [Name(existing)];
      && existing != target && existing != Partial(target) && target != Partial(target)
      && Under(target, aside) && Under(Partial(target), aside) && !Under(existing, aside)
      && Parent(target) == aside && Parent(Partial(target)) == aside && !SharesStem(destination, target)
  {
    var target := aside + [Name(existing)];
    assert |Name(Partial(target))| > |Name(target)|;
  }

  /** The files in `done` are aside; no other file has been touched. */
  ghost predicate AsideProgress(f: Files, aside: Path, done: set<Path>, g: Files) {
    && (forall q :: q in done ==> q !in g && aside + [Name(q)] in g && q in f && g[aside + [Name(q)]] == f[q])
    && (forall q :: q !in done && Parent(q) != aside ==> Same(f, g, q))
    && (forall q :: q in g && Parent(q) == aside ==> exists d :: d in done && q == aside + [Name(d)])
  }

  lemma SharesFolder(destination: Path, q: Path)
    requires SharesStem(destination, q)
    ensures q != [] && Parent(q) == Parent(destination)
  {
  }

  lemma AsideStart(f: Files, aside: Path)
    requires AsideFree(f, aside)
    ensures AsideProgress(f, aside, {}, f)
  {
    forall q | q in f ensures Parent(q) != aside {
      assert !Under(q, aside);
    }
  }

  lemma AsideStep(f: Files, destination: Path, aside: Path, done: set<Path>, q: Path, g: Files, h: Files)
    requires q in f && q !in done && SharesStem(destination, q)
    requires Apart(destination, aside) && Plain(Name(destination))
    requires AsideProgress(f, aside, done, g)
    requires forall d :: d in done ==> SharesStem(destination, d)
    requires h == MoveResult(g, q, aside + [Name(q)])
    ensures AsideProgress(f, aside, done + {q}, h)
  {
    var target := aside + [Name(q)];
    AsidePaths(destination, aside, q);
    assert Same(f, g, q) && Parent(q) == Parent(destination) by {
      assert Parent(q) != aside;
    }
    forall d | d in done
      ensures aside + [Name(d)] != target && aside + [Name(d)] != Partial(target) && aside + [Name(d)] != q && d != target
    {
      AsideNames(destination, aside, q, d);
    }
    assert target !in g;
    MoveResultFree(g, q, target);
    AsideStepMap(f, aside, done, q, g, h);
  }

  lemma AsideUntouched(f: Files, destination: Path, aside: Path, done: set<Path>, g: Files, q: Path)
    requires AsideProgress(f, aside, done, g) && Apart(destination, aside)
    requires q in f && q !in done && SharesStem(destination, q)
    ensures q in g
  {
    assert Parent(q) == Parent(destination) && Parent(q) != aside;
    assert Same(f, g, q);
  }

  lemma AsideNames(destination: Path, aside: Path, q: Path, d: Path)
    requires SharesStem(destination, q) && SharesStem(destination, d) && q != d
    requires Apart(destination, aside) && Plain(Name(destination))
    ensures var target := aside + [Name(q)];
      aside + [Name(d)] != target && aside + [Name(d)] != Partial(target) && aside + [Name(d)] != q && d != target
  {
    hide Partial, SharesStem, Apart, Under, Plain, Stem, Parent, Name;
    AsidePaths(destination, aside, q);
    AsidePaths(destination, aside, d);
    SharesFolder(destination, q);
    SharesFolder(destination, d);
    SameFolderNames(d, q);
    DotIsNotShared(destination, d);
    PartialName(aside + [Name(q)]);
    ChildName(aside, Name(d));
    ChildName(aside, Name(q));
  }

  lemma SameFolderNames(p: Path, q: Path)
    requires p != q && p != [] && q != [] && Parent(p) == Parent(q)
    ensures Name(p) != Name(q)
  {
    IsItsName(p);
    IsItsName(q);
  }

  lemma ChildName(folder: Path, name: string)
    ensures Name(folder + [name]) == name && Parent(folder + [name]) == folder
  {
  }

  /** A partial file's name starts with a dot. */
  lemma PartialName(p: Path)
    ensures Name(Partial(p)) != "" && Name(Partial(p))[0] == '.' && Parent(Partial(p)) == Parent(p)
    ensures |Name(Partial(p))| > |Name(p)| && Partial(p) != p
  {
    assert |Name(Partial(p))| > |Name(p)|;
  }

  lemma MoveResultFree(g: Files, source: Path, destination: Path)
    requires source in g && destination !in g && source != destination && destination != Partial(destination)
    ensures var h := MoveResult(g, source, destination);
      && source !in h && destination in h && h[destination] == g[source] && Partial(destination) !in h
      && forall p :: p != source && p != destination && p != Partial(destination) ==> Same(g, h, p)
  {
  }

  lemma DotIsNotShared(destination: Path, existing: Path)
    requires SharesStem(destination, existing) && Plain(Name(destination))
    ensures Name(existing) != "" && Name(existing)[0] != '.'
  {
    var stem := Stem(Name(destination));
    assert stem != "" && stem[0] != '.';
    assert (stem + ".")[0] == stem[0];
  }

  lemma AsideStepMap(f: Files, aside: Path, done: set<Path>, q: Path, g: Files, h: Files)
    requires q in f && q !in done && AsideProgress(f, aside, done, g)
    requires var target, partial := aside + [Name(q)], Partial(aside + [Name(q)]);
      && Parent(q) != aside && Parent(target) == aside && Parent(partial) == aside
      && q !in h && target in h && h[target] == f[q]
      && (forall p :: p != q && p != target && p != partial ==> Same(g, h, p)) && partial !in h
      && forall d :: d in done ==> aside + [Name(d)] != target && aside + [Name(d)] != partial
                                   && aside + [Name(d)] != q && d != target
    ensures AsideProgress(f, aside, done + {q}, h)
  {
    hide Partial, Parent;
    var target, partial := aside + [Name(q)], Partial(aside + [Name(q)]);
    forall d | d in done ensures d !in h && aside + [Name(d)] in h && h[aside + [Name(d)]] == f[d] {
      assert Same(g, h, aside + [Name(d)]);
      assert d == partial || Same(g, h, d);
    }
    forall p | p !in done + {q} && Parent(p) != aside ensures Same(f, h, p) {
      assert Same(f, g, p) && Same(g, h, p);
    }
    forall p | p in h && Parent(p) == aside ensures exists d :: d in done + {q} && p == aside + [Name(d)] {
      if p == target {
        assert q in done + {q};
      } else {
        assert Same(g, h, p);
        var d :| d in done && p == aside + [Name(d)];
        assert d in done + {q};
      }
    }
  }

  lemma AsideDone(f: Files, destination: Path, aside: Path, done: set<Path>, g: Files)
    requires AsideProgress(f, aside, done, g) && AsideFree(f, aside)
    requires forall q :: q in done ==> SharesStem(destination, q)
    requires forall q :: q in f && SharesStem(destination, q) ==> q in done
    ensures MovedAside(f, destination, aside, g)
  {
    hide SharesStem;
    forall q | !SharesStem(destination, q) && Parent(q) != aside ensures Same(f, g, q) {
      assert q !in done;
    }
    forall q | q in g && q !in f ensures Parent(q) == aside {
      assert q !in done;
    }
  }
}
