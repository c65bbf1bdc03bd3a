/** `organize` over every crash and re-run (backend/app/library/organizer.py, lines 69-181). */
module Organize {
  import opened Wrappers
  import opened Text
  import opened Paths
  import opened Disks
  import opened Organizer
  import opened OrganizeStates
  import opened Existing

  datatype Outcome =
    | Done(video: Path, sidecars: seq<Path>, size: nat)
    | Crashed
    | InvalidMedia
    | Unnameable
    | Escapes
    | Collision(existing: Path)
    | NothingToMove(source: Path)

  // ------------------------------------------------------------- what a run comes to

  /** A run that starts at `g` can come through `h`, and does not lose the marker on the way. */
  ghost predicate Reached(f: Files, job: Job, destination: Path, g: Files, h: Files)
    requires Ready(job, f, destination)
  {
    Resumable(f, job, destination, h) && (job.Marker() in g ==> job.Marker() in h)
  }

  ghost predicate AllReached(f: Files, job: Job, destination: Path, g: Files, trace: seq<Files>, start: nat)
    requires Ready(job, f, destination)
  {
    forall i :: start <= i < |trace| ==> Reached(f, job, destination, g, trace[i])
  }

  /** A run from `g` came through the states from `start` on to `h` with the answer `r`. */
  ghost predicate AsPlanned(f: Files, job: Job, destination: Path, g: Files, trace: seq<Files>, start: nat,
                            h: Files, r: Outcome)
    requires Ready(job, f, destination)
  {
    && AllReached(f, job, destination, g, trace, start) && Reached(f, job, destination, g, h)
    && (r.Done? || r.Crashed?)
    && (r.Done? ==>
          && Finished(f, job, destination, h)
          && r == Done(destination, SidecarTargets(job, destination, |job.sidecars|), |f[job.video]|))
  }

  /** One part of a run after another. */
  lemma ReachedTogether(f: Files, job: Job, destination: Path, g: Files, before: seq<Files>, start: nat,
                        h: Files, trace: seq<Files>)
    requires Ready(job, f, destination) && before <= trace
    requires AllReached(f, job, destination, g, before, start) && Reached(f, job, destination, g, h)
    requires AllReached(f, job, destination, h, trace, |before|)
    ensures AllReached(f, job, destination, g, trace, start)
  {
    hide Resumable, Ready;
  }

  lemma NothingReached(f: Files, job: Job, destination: Path, g: Files, trace: seq<Files>)
    requires Ready(job, f, destination) && Resumable(f, job, destination, g)
    ensures Reached(f, job, destination, g, g) && AllReached(f, job, destination, g, trace, |trace|)
  {
    hide Resumable;
  }

  /** `_write_marker`: the text goes into a temporary file, which one rename puts in place. */
  method WriteMarker(disk: Disk, job: Job, destination: Path) returns (alive: bool)
    requires disk.Valid()
    modifies disk
    ensures disk.Valid() && (disk.life.Forever? <==> old(disk.life).Forever?)
    ensures old(disk.trace) <= disk.trace && (!alive ==> !disk.life.Forever?)
    ensures forall i :: |old(disk.trace)| <= i < |disk.trace| ==>
      || (forall q :: q != job.MarkerTemp() ==> Same(old(disk.files), disk.trace[i], q))
      || disk.trace[i] == Marked(old(disk.files), job, destination)
    ensures !alive ==> forall q :: q != job.MarkerTemp() ==> Same(old(disk.files), disk.files, q)
    ensures alive ==> disk.files == Marked(old(disk.files), job, destination)
  {
    MarkersDiffer(job);
    hide Print;
    var temporary := job.MarkerTemp();
    ghost var g := disk.files;
    alive := disk.Step(Write(temporary, ""));
    if !alive { return; }
    alive := disk.Step(Write(temporary, Print(destination)));
    if !alive { return; }
    alive := disk.Step(Rename(temporary, job.Marker()));
    assert g[temporary := ""][temporary := Print(destination)] - {temporary} == g - {temporary};
  }

  /** The entries of a folder, in some order. */
  method ListFolder(disk: Disk, folder: Path) returns (listing: seq<Path>)
    ensures IsListing(disk.files, folder, listing)
  {
    var rest := set q | q in disk.files && q != [] && Parent(q) == folder;
    ghost var entries := rest;
    listing := [];
    while rest != {}
      invariant forall q :: q in entries <==> q in rest || q in listing
      invariant forall q :: q in rest ==> q !in listing
      invariant forall i, j :: 0 <= i < j < |listing| ==> listing[i] != listing[j]
      decreases |rest|
    {
      var q :| q in rest;
      rest := rest - {q};
      listing := listing + [q];
    }
  }

  datatype Resolution = Chose(path: Path) | Taken | Dead

  /** `_resolve_collision`. */
  method ResolveCollision(disk: Disk, job: Job, policy: Policy, destination: Path) returns (r: Resolution)
    requires disk.Valid() && destination in disk.files && Plain(Name(destination))
    requires Placed(job) && Under(Parent(destination), job.completed)
    modifies disk
    ensures disk.Valid() && (disk.life.Forever? <==> old(disk.life).Forever?)
    ensures old(disk.trace) <= disk.trace && (r.Dead? ==> !disk.life.Forever? && policy == Replace)
    ensures r.Taken? <==> policy == Ask
    ensures policy != Replace ==> disk.files == old(disk.files) && disk.trace == old(disk.trace)
    ensures policy == KeepBoth ==> r.Chose? && exists number: nat ::
      IsLeastFree(disk.files, destination, number) && r.path == Numbered(destination, number)
    ensures policy == Replace && r.Chose? ==> r.path == destination
    ensures policy == Replace && r.Chose? && AsideFree(old(disk.files), job.Aside()) ==>
      MovedAside(old(disk.files), destination, job.Aside(), disk.files)
  {
    match policy
    case Ask =>
      return Taken;
    case Replace =>
      var alive := disk.MakeDirs(job.Aside());
      if !alive { return Dead; }
      ReplacedApart(job, destination);
      var listing := ListFolder(disk, Parent(destination));
      alive := MoveAside(disk, destination, job.Aside(), listing);
      return if alive then Chose(destination) else Dead;
    case KeepBoth =>
      var candidate, number := KeepBothName(disk, destination);
      return Chose(candidate);
  }

  lemma ReplacedApart(job: Job, destination: Path)
    requires Placed(job) && Under(Parent(destination), job.completed)
    ensures Apart(destination, job.Aside())
  {
  }

  /** The targets of all sidecars, in order. */
  function SidecarTargets(job: Job, destination: Path, n: nat): seq<Path>
    requires n <= |job.sidecars|
  {
    if n == 0 then [] else SidecarTargets(job, destination, n - 1) + [Target(job, destination, n - 1)]
  }

  lemma ItemPaths(job: Job, destination: Path, k: nat)
    requires Placed(job) && Under(Parent(destination), job.completed) && Plain(Name(destination))
    requires k <= |job.sidecars|
    ensures var s, t := Source(job, k), Target(job, destination, k);
      s != t && s != Partial(t) && t != Partial(t) && Outside(job, s)
    ensures var t := Target(job, destination, k); Under(t, job.completed) && Under(Partial(t), job.completed)
  {
    hide Partial, Target, Plain, Source;
    TargetPlace(job, destination, k);
    PartialName(Target(job, destination, k));
    assert Outside(job, Source(job, k));
  }

  /** The moves before the `k`th are done, as planned. */
  ghost predicate MovingAt(f: Files, job: Job, destination: Path, k: nat, g: Files) {
    && Ready(job, f, destination) && k <= |job.sidecars| + 1
    && Resumable(f, job, destination, g) && MovedUpTo(f, job, destination, k, g)
  }

  lemma MidMoveIsReached(f: Files, job: Job, destination: Path, k: nat, g: Files, h: Files)
    requires Placed(job) && Under(Parent(destination), job.completed) && Plain(Name(destination))
    requires k <= |job.sidecars| && MovingAt(f, job, destination, k, g)
    requires Midway(g, Source(job, k), Target(job, destination, k), h)
    ensures Reached(f, job, destination, g, h) && MovedUpTo(f, job, destination, k, h)
  {
    hide Resumable, Midway, Partial, Target, Source, Placed, Under, Plain;
    ReadyIsSeparate(job, f, destination);
    MoveStep(f, job, destination, k, g, h);
  }

  /** The `k`th move: a sidecar beside the video, or the video itself. */
  method MoveItem(disk: Disk, job: Job, destination: Path, k: nat, ghost f: Files) returns (outcome: MoveOutcome)
    requires disk.Valid() && Placed(job) && k <= |job.sidecars|
    requires Under(Parent(destination), job.completed) && Plain(Name(destination))
    modifies disk
    ensures disk.Valid() && (disk.life.Forever? <==> old(disk.life).Forever?)
    ensures old(disk.trace) <= disk.trace && (outcome.Died? ==> !disk.life.Forever?)
    ensures outcome.Moved? ==> disk.files == MoveResult(old(disk.files), Source(job, k), Target(job, destination, k))
    ensures outcome.Moved? && k == |job.sidecars| ==> destination in disk.files
    ensures MovingAt(f, job, destination, k, old(disk.files)) ==>
      && AllReached(f, job, destination, old(disk.files), disk.trace, |old(disk.trace)|)
      && Reached(f, job, destination, old(disk.files), disk.files) && !outcome.Missing?
      && (outcome.Moved? ==> MovingAt(f, job, destination, k + 1, disk.files))
  {
    hide Midway, MoveResult, Partial, Target, Source, Placed, Under, Plain, Resumable, Ready, MovedUpTo, Outside;
    ghost var g, start := disk.files, |disk.trace|;
    ItemPaths(job, destination, k);
    outcome := Move(disk, Source(job, k), Target(job, destination, k));
    if MovingAt(f, job, destination, k, g) {
      PlannedMove(f, job, destination, k, g);
      forall i | start <= i < |disk.trace| ensures Reached(f, job, destination, g, disk.trace[i]) {
        MidMoveIsReached(f, job, destination, k, g, disk.trace[i]);
      }
      MidMoveIsReached(f, job, destination, k, g, disk.files);
      if outcome.Moved? {
        ReadyIsSeparate(job, f, destination);
        MoveArrives(f, job, destination, k, g, disk.files);
      }
    }
    if outcome.Moved? { MoveLands(job, destination, k, g); }
  }

  /** The moves of `_organize_files`: sidecars first, the video last. */
  method MoveAll(disk: Disk, job: Job, destination: Path, ghost f: Files) returns (r: Outcome)
    requires disk.Valid() && Placed(job)
    requires Under(Parent(destination), job.completed) && Plain(Name(destination))
    modifies disk
    ensures disk.Valid() && (disk.life.Forever? <==> old(disk.life).Forever?)
    ensures old(disk.trace) <= disk.trace && (r.Crashed? ==> !disk.life.Forever?)
    ensures r.Done? || r.Crashed? || r.NothingToMove?
    ensures r.Done? ==>
      && disk.files == AfterMoves(old(disk.files), job, destination, |job.sidecars| + 1)
      && destination in disk.files
      && r == Done(destination, SidecarTargets(job, destination, |job.sidecars|), |disk.files[destination]|)
    ensures MovingAt(f, job, destination, 0, old(disk.files)) ==>
      AsPlanned(f, job, destination, old(disk.files), disk.trace, |old(disk.trace)|, disk.files, r)
  {
    hide MoveResult, Target, Source, Placed, Plain, Under, MovedUpTo, Ready, Resumable, Finished, Reached, AllReached;
    ghost var g, start := disk.files, |disk.trace|;
    ghost var planned := MovingAt(f, job, destination, 0, g);
    if planned { NothingReached(f, job, destination, g, disk.trace); }
    var moved: seq<Path> := [];
    var k := 0;
    while k <= |job.sidecars|
      invariant k <= |job.sidecars| + 1 && disk.Valid() && (disk.life.Forever? <==> old(disk.life).Forever?)
      invariant old(disk.trace) <= disk.trace
      invariant disk.files == AfterMoves(g, job, destination, k)
      invariant k == |job.sidecars| + 1 ==> destination in disk.files
      invariant moved == SidecarTargets(job, destination, if k <= |job.sidecars| then k else k - 1)
      invariant planned ==>
        && MovingAt(f, job, destination, k, disk.files) && Reached(f, job, destination, g, disk.files)
        && AllReached(f, job, destination, g, disk.trace, start)
    {
      ghost var h, before := disk.files, disk.trace;
      var outcome := MoveItem(disk, job, destination, k, f);
      if planned {
        ReachedTogether(f, job, destination, g, before, start, h, disk.trace);
        ReachedTwice(f, job, destination, g, h, disk.files);
      }
      if outcome.Died? { return Crashed; }
      if outcome.Missing? { return NothingToMove(Source(job, k)); }
      if k < |job.sidecars| { moved := moved + [Target(job, destination, k)]; }
      k := k + 1;
    }
    if planned {
      AllMoved(f, job, destination, disk.files);
      FinishedVideo(f, job, destination, disk.files);
    }
    return Done(destination, moved, |disk.files[destination]|);
  }

  lemma ReachedTwice(f: Files, job: Job, destination: Path, g: Files, h: Files, i: Files)
    requires Ready(job, f, destination) && Reached(f, job, destination, g, h) && Reached(f, job, destination, h, i)
    ensures Reached(f, job, destination, g, i)
  {
    hide Resumable, Ready;
  }

  lemma MoveLands(job: Job, destination: Path, k: nat, g: Files)
    requires k <= |job.sidecars| && (Source(job, k) in g || Target(job, destination, k) in g)
    requires Target(job, destination, k) != Partial(Target(job, destination, k))
    requires Source(job, k) != Target(job, destination, k)
    ensures k == |job.sidecars| ==> destination in MoveResult(g, Source(job, k), Target(job, destination, k))
  {
    hide Partial;
  }

  lemma PlannedMove(f: Files, job: Job, destination: Path, k: nat, g: Files)
    requires Ready(job, f, destination) && Resumable(f, job, destination, g) && k <= |job.sidecars|
    ensures Source(job, k) in g || Target(job, destination, k) in g
  {
    hide Partial, Target, Source;
    assert OnItsWay(f[Source(job, k)], Source(job, k), Target(job, destination, k), g);
  }

  lemma FinishedVideo(f: Files, job: Job, destination: Path, g: Files)
    requires Ready(job, f, destination) && Finished(f, job, destination, g)
    ensures destination in g && job.video in f && g[destination] == f[job.video]
  {
    var n := |job.sidecars|;
    assert Arrived(f[Source(job, n)], Source(job, n), Target(job, destination, n), g);
  }

  /** The state a run of this job may start from: what a crashed run left, or the first. */
  ghost predicate Planned(job: Job, f: Files, destination: Path, g: Files) {
    && Ready(job, f, destination) && Resumable(f, job, destination, g) && Settled(job, destination)
    && (job.Marker() !in g ==> Chosen(job, f, destination))
  }

  /** A re-run settles on the same destination as the first run, marker or not. */
  lemma PlannedDestination(job: Job, f: Files, destination: Path, g: Files, firstRun: bool)
    requires Placed(job) && Planned(job, f, destination, g) && firstRun == (job.Marker() !in g)
    ensures var guarded := Guard(if firstRun then job.named.path else destination, job.completed);
      && guarded.Some?
      && (if !firstRun || guarded.value !in g then guarded.value == destination
          else KeepsBoth(job) && forall number: nat ::
                 IsLeastFree(g, guarded.value, number) ==> destination == Numbered(guarded.value, number))
  {
    hide Numbered, Plain, Guard, Under;
    if firstRun {
      var c := Guard(job.named.path, job.completed).value;
      GuardedIsSettled(job);
      PlainIsName(c);
      AgreeInside(job, f, g, c);
      if c in g {
        var number: nat :| IsLeastFree(f, c, number) && destination == Numbered(c, number);
        forall other: nat | IsLeastFree(g, c, other) ensures destination == Numbered(c, other) {
          SameLeastFree(job, f, g, c, other);
          LeastFreeUnique(f, c, number, other);
        }
      }
    }
  }

  lemma SameLeastFree(job: Job, f: Files, g: Files, c: Path, number: nat)
    requires Placed(job) && Under(Parent(c), job.completed) && Plain(Name(c))
    requires forall q :: q != job.MarkerTemp() ==> Same(f, g, q)
    requires IsLeastFree(g, c, number)
    ensures IsLeastFree(f, c, number)
  {
    hide Numbered, Plain, Placed, Under;
    forall m: nat | 1 <= m <= number ensures Same(f, g, Numbered(c, m)) {
      NumberedIsPlain(c, m);
      PlainIsName(Numbered(c, m));
      AgreeInside(job, f, g, Numbered(c, m));
    }
  }

  lemma AgreeInside(job: Job, f: Files, g: Files, p: Path)
    requires Placed(job) && p != [] && Under(Parent(p), job.completed)
    requires forall q :: q != job.MarkerTemp() ==> Same(f, g, q)
    ensures Same(f, g, p)
  {
    assert Outside(job, job.MarkerTemp());
    assert Under(p, job.completed);
  }

  lemma MarkerAnyStep(f: Files, job: Job, destination: Path, g: Files, h: Files)
    requires Ready(job, f, destination) && Separate(job, destination) && Resumable(f, job, destination, g)
    requires (forall q :: q != job.MarkerTemp() ==> Same(g, h, q))
             || h == Marked(g, job, destination)
    ensures Reached(f, job, destination, g, h)
  {
    hide Resumable, Ready, Separate;
    MarkersDiffer(job);
    assert h != Marked(g, job, destination) ==> Same(g, h, job.Marker());
    if forall q :: q != job.MarkerTemp() ==> Same(g, h, q) {
      MarkerTempStep(f, job, destination, g, h);
    } else {
      MarkerStep(f, job, destination, g, h);
    }
  }

  lemma MarkerWritten(f: Files, job: Job, destination: Path, g: Files, h: Files)
    requires Ready(job, f, destination)
    requires h == Marked(g, job, destination)
    ensures MovedUpTo(f, job, destination, 0, h)
  {
    MarkersDiffer(job);
    hide Partial, Target, Source;
  }

  /** Every file that shares the stem is in the job's folder for replaced files, with its bytes. */
  ghost predicate AllAside(f: Files, job: Job, c: Path, h: Files) {
    forall q :: q in f && SharesStem(c, q) ==> var kept := job.Aside() + [Name(q)]; kept in h && h[kept] == f[q]
  }

  /** What REPLACE put aside stays there while the new files come in. */
  lemma KeptAside(job: Job, c: Path, g: Files, h: Files, final: Files)
    requires MovedAside(g, c, job.Aside(), h)
    requires forall q :: Under(q, job.Aside()) ==> Same(h, final, q)
    ensures AllAside(g, job, c, final)
  {
    forall q | q in g && SharesStem(c, q)
      ensures var kept := job.Aside() + [Name(q)]; kept in final && final[kept] == g[q]
    {
      var kept := job.Aside() + [Name(q)];
      assert Under(kept, job.Aside()) && Same(h, final, kept);
    }
  }

  lemma OffAside(job: Job, destination: Path, k: nat)
    requires Placed(job) && Under(Parent(destination), job.completed) && Plain(Name(destination))
    requires k <= |job.sidecars|
    ensures var s, t := Source(job, k), Target(job, destination, k);
      !Under(s, job.Aside()) && !Under(t, job.Aside()) && !Under(Partial(t), job.Aside())
  {
    hide Target, Source, Plain, Partial;
    ItemPaths(job, destination, k);
    NotAside(job, Target(job, destination, k));
    NotAside(job, Partial(Target(job, destination, k)));
  }

  lemma NotAside(job: Job, p: Path)
    requires Placed(job) && Under(p, job.completed)
    ensures !Under(p, job.Aside())
  {
  }

  lemma MoveResultFrame(f: Files, source: Path, destination: Path, q: Path)
    requires q != source && q != destination && q != Partial(destination)
    ensures Same(f, MoveResult(f, source, destination), q)
  {
    hide Partial;
  }

  /** The moves do not touch the folder of replaced files. */
  lemma {:induction false} MovesKeepAside(f: Files, job: Job, destination: Path, k: nat)
    requires Placed(job) && Under(Parent(destination), job.completed) && Plain(Name(destination))
    requires k <= |job.sidecars| + 1
    ensures forall q :: Under(q, job.Aside()) ==> Same(f, AfterMoves(f, job, destination, k), q)
    decreases k
  {
    hide MoveResult, Target, Source, Plain, Partial, Placed, Under;
    if k > 0 {
      MovesKeepAside(f, job, destination, k - 1);
      OffAside(job, destination, k - 1);
      var g := AfterMoves(f, job, destination, k - 1);
      var s, t := Source(job, k - 1), Target(job, destination, k - 1);
      forall q | Under(q, job.Aside()) ensures Same(f, MoveResult(g, s, t), q) {
        MoveResultFrame(g, s, t, q);
        assert Same(f, g, q);
      }
    }
  }

  lemma MarkedKeepsAside(f: Files, job: Job, destination: Path)
    requires Placed(job)
    ensures forall q :: Under(q, job.Aside()) ==> Same(f, Marked(f, job, destination), q)
  {
    assert Outside(job, job.Marker()) && Outside(job, job.MarkerTemp());
  }

  lemma AllKeepsAside(f: Files, job: Job, destination: Path)
    requires Placed(job) && Under(Parent(destination), job.completed) && Plain(Name(destination))
    ensures forall q :: Under(q, job.Aside()) ==>
      Same(f, AfterMoves(Marked(f, job, destination), job, destination, |job.sidecars| + 1), q)
  {
    hide AfterMoves, Marked, Plain, Placed, Under, Same;
    MarkedKeepsAside(f, job, destination);
    MovesKeepAside(Marked(f, job, destination), job, destination, |job.sidecars| + 1);
    var g, h := Marked(f, job, destination), AfterMoves(Marked(f, job, destination), job, destination, |job.sidecars| + 1);
    forall q | Under(q, job.Aside()) ensures Same(f, h, q) {
      SameTwice(f, g, h, q);
    }
  }

  lemma SameTwice(f: Files, g: Files, h: Files, q: Path)
    requires Same(f, g, q) && Same(g, h, q)
    ensures Same(f, h, q)
  {
  }

  /** The folder and the marker, once the destination is settled. */
  method MarkDestination(disk: Disk, job: Job, destination: Path, ghost f: Files) returns (alive: bool)
    requires disk.Valid() && Placed(job)
    requires Under(Parent(destination), job.completed) && Plain(Name(destination))
    modifies disk
    ensures disk.Valid() && (disk.life.Forever? <==> old(disk.life).Forever?)
    ensures old(disk.trace) <= disk.trace && (!alive ==> !disk.life.Forever?)
    ensures alive ==> disk.files == Marked(old(disk.files), job, destination)
    ensures Ready(job, f, destination) && Resumable(f, job, destination, old(disk.files)) ==>
      && AllReached(f, job, destination, old(disk.files), disk.trace, |old(disk.trace)|)
      && Reached(f, job, destination, old(disk.files), disk.files)
      && (alive ==> MovingAt(f, job, destination, 0, disk.files))
  {
    hide Resumable, MovedUpTo, Placed, Ready, Under, Plain, Print, Marked, Reached, AllReached;
    ghost var g, start := disk.files, |disk.trace|;
    ghost var planned := Ready(job, f, destination) && Resumable(f, job, destination, g);
    if planned { ReadyIsSeparate(job, f, destination); NothingReached(f, job, destination, g, disk.trace); }
    alive := disk.MakeDirs(Parent(destination));
    if planned { UnchangedIsReached(f, job, destination, g, disk.trace, start); }
    if !alive { return; }
    ghost var made := disk.trace;
    alive := WriteMarker(disk, job, destination);
    if planned {
      forall i | |made| <= i < |disk.trace| ensures Reached(f, job, destination, g, disk.trace[i]) {
        MarkerAnyStep(f, job, destination, g, disk.trace[i]);
      }
      AllReachedIs(f, job, destination, g, disk.trace, |made|);
      MarkerAnyStep(f, job, destination, g, disk.files);
      ReachedTogether(f, job, destination, g, made, start, g, disk.trace);
      ReachedIsResumable(f, job, destination, g, disk.files);
      if alive { MarkerWritten(f, job, destination, g, disk.files); }
    }
  }

  /** The marker and the moves, once the destination is settled. */
  method MarkAndMove(disk: Disk, job: Job, destination: Path, ghost f: Files) returns (r: Outcome)
    requires disk.Valid() && Placed(job)
    requires Under(Parent(destination), job.completed) && Plain(Name(destination))
    modifies disk
    ensures disk.Valid() && (disk.life.Forever? <==> old(disk.life).Forever?)
    ensures old(disk.trace) <= disk.trace && (r.Crashed? ==> !disk.life.Forever?)
    ensures r.Done? || r.Crashed? || r.NothingToMove?
    ensures r.Done? ==>
      && disk.files == Stored(old(disk.files), job, destination)
      && destination in disk.files
      && r == Done(destination, SidecarTargets(job, destination, |job.sidecars|), |disk.files[destination]|)
    ensures Ready(job, f, destination) && Resumable(f, job, destination, old(disk.files)) ==>
      AsPlanned(f, job, destination, old(disk.files), disk.trace, |old(disk.trace)|, disk.files, r)
  {
    hide Resumable, Finished, MovedUpTo, Placed, Ready, Under, Plain;
    hide SidecarTargets, AfterMoves, Marked, Reached, AllReached;
    ghost var g, start := disk.files, |disk.trace|;
    var alive := MarkDestination(disk, job, destination, f);
    if !alive { return Crashed; }
    ghost var before, h := disk.trace, disk.files;
    r := MoveAll(disk, job, destination, f);
    if Ready(job, f, destination) && Resumable(f, job, destination, g) {
      ReachedTogether(f, job, destination, g, before, start, h, disk.trace);
      ReachedTwice(f, job, destination, g, h, disk.files);
    }
  }

  lemma AllReachedIs(f: Files, job: Job, destination: Path, g: Files, trace: seq<Files>, start: nat)
    requires Ready(job, f, destination)
    requires forall i :: start <= i < |trace| ==> Reached(f, job, destination, g, trace[i])
    ensures AllReached(f, job, destination, g, trace, start)
  {
    hide Reached, Ready;
  }

  lemma ReachedIsResumable(f: Files, job: Job, destination: Path, g: Files, h: Files)
    requires Ready(job, f, destination) && Reached(f, job, destination, g, h)
    ensures Resumable(f, job, destination, h)
  {
    hide Resumable, Ready;
  }

  lemma UnchangedIsReached(f: Files, job: Job, destination: Path, g: Files, trace: seq<Files>, start: nat)
    requires Ready(job, f, destination) && Resumable(f, job, destination, g)
    requires forall i :: start <= i < |trace| ==> trace[i] == g
    ensures AllReached(f, job, destination, g, trace, start)
  {
    hide Resumable, Ready;
  }

  /** The destination a run settles on once the guard has accepted `c`. */
  ghost predicate Resolved(f: Files, policy: Policy, firstRun: bool, c: Path, destination: Path) {
    if firstRun && c in f && policy == KeepBoth
    then exists number: nat :: IsLeastFree(f, c, number) && destination == Numbered(c, number)
    else destination == c
  }

  /** `_organize_files`. */
  method OrganizeFiles(disk: Disk, job: Job, wanted: Path, firstRun: bool, policy: Policy,
                       ghost f: Files, ghost destination: Path)
    returns (r: Outcome)
    requires disk.Valid() && Placed(job)
    requires Plain(Name(wanted))
    modifies disk
    ensures disk.Valid() && (disk.life.Forever? <==> old(disk.life).Forever?)
    ensures old(disk.trace) <= disk.trace && (r.Crashed? ==> !disk.life.Forever?)
    ensures !r.InvalidMedia? && !r.Unnameable?
    ensures r.Escapes? <==> Guard(wanted, job.completed).None?
    ensures r.Escapes? || r.Collision? ==> disk.files == old(disk.files) && disk.trace == old(disk.trace)
    ensures r.Collision? <==>
      var guarded := Guard(wanted, job.completed);
      guarded.Some? && firstRun && guarded.value in old(disk.files) && policy == Ask
    ensures r.Done? && firstRun && policy == Replace && AsideFree(old(disk.files), job.Aside()) ==>
      var guarded := Guard(wanted, job.completed).value;
      guarded in old(disk.files) ==> AllAside(old(disk.files), job, guarded, disk.files)
    ensures r.Done? ==>
      var guarded := Guard(wanted, job.completed).value;
      && Resolved(old(disk.files), policy, firstRun, guarded, r.video)
      && (!(firstRun && guarded in old(disk.files) && policy == Replace) ==>
            disk.files == Stored(old(disk.files), job, r.video))
    ensures
      Planned(job, f, destination, old(disk.files)) && (policy == KeepBoth <==> KeepsBoth(job))
      && firstRun == (job.Marker() !in old(disk.files)) && wanted == (if firstRun then job.named.path else destination) ==>
        AsPlanned(f, job, destination, old(disk.files), disk.trace, |old(disk.trace)|, disk.files, r)
  {
    hide Resumable, Finished, Placed, Ready, AsideFree, MovedAside, SharesStem, Guard, Under, Plain;
    hide SidecarTargets, AsPlanned, AfterMoves, Marked, Numbered, AllAside;
    ghost var g := disk.files;
    ghost var planned := Planned(job, f, destination, g) && (policy == KeepBoth <==> KeepsBoth(job))
      && firstRun == (job.Marker() !in g) && wanted == (if firstRun then job.named.path else destination);
    var guarded := Guard(wanted, job.completed);
    if planned { PlannedDestination(job, f, destination, g, firstRun); }
    if guarded.None? { return Escapes; }
    GuardedPlace(job, wanted);
    var chosen := guarded.value;
    if firstRun && chosen in disk.files {
      var resolution := ResolveCollision(disk, job, policy, chosen);
      if resolution.Taken? { return Collision(chosen); }
      if resolution.Dead? { return Crashed; }
      if policy == KeepBoth {
        ghost var number: nat :| IsLeastFree(disk.files, chosen, number) && resolution.path == Numbered(chosen, number);
        NumberedIsPlain(chosen, number);
      }
      chosen := resolution.path;
    }
    assert planned ==> chosen == destination && disk.files == g && disk.trace == old(disk.trace);
    ghost var h := disk.files;
    r := MarkAndMove(disk, job, chosen, f);
    if r.Done? && MovedAside(g, guarded.value, job.Aside(), h) {
      AllKeepsAside(h, job, chosen);
      KeptAside(job, guarded.value, g, h, disk.files);
    }
  }

  lemma GuardedPlace(job: Job, wanted: Path)
    requires Placed(job) && Plain(Name(wanted)) && Guard(wanted, job.completed).Some?
    ensures var c := Guard(wanted, job.completed).value;
      c != [] && Under(Parent(c), job.completed) && Plain(Name(c))
  {
    ResolveCanonical(job.completed);
  }

  /** `organize`: the marker, once it is there, pins the destination and the video is not
      probed again. */
  method OrganizeJob(disk: Disk, job: Job, ghost f: Files, ghost destination: Path) returns (r: Outcome)
    requires disk.Valid() && Placed(job)
    requires job.Marker() in disk.files ==> Plain(Name(Parse(disk.files[job.Marker()])))
    modifies disk
    ensures disk.Valid() && (disk.life.Forever? <==> old(disk.life).Forever?)
    ensures old(disk.trace) <= disk.trace && (r.Crashed? ==> !disk.life.Forever?)
    ensures r.InvalidMedia? <==> job.Marker() !in old(disk.files) && job.named.NotAVideo?
    ensures r.Unnameable? <==> job.Marker() !in old(disk.files) && job.named.NoName?
    ensures r.InvalidMedia? || r.Unnameable? || r.Escapes? || r.Collision? ==>
      disk.files == old(disk.files) && disk.trace == old(disk.trace)
    ensures r.Collision? <==>
      && job.Marker() !in old(disk.files) && job.named.Named?
      && var guarded := Guard(job.named.path, job.completed);
        guarded.Some? && guarded.value in old(disk.files) && !job.isOther && job.collisionPolicy == Ask
    ensures r.Done? && job.Marker() !in old(disk.files) ==>
      job.named.Named? && var guarded := Guard(job.named.path, job.completed);
      guarded.Some? && FirstRunIs(old(disk.files), job, guarded.value, r.video, disk.files)
    ensures Planned(job, f, destination, old(disk.files)) ==>
      AsPlanned(f, job, destination, old(disk.files), disk.trace, |old(disk.trace)|, disk.files, r)
  {
    if Planned(job, f, destination, disk.files) { MarkerSays(job, f, destination, disk.files); }
    hide Resumable, Finished, Placed, Ready, Parse, Print, AsPlanned, Stored, Guard, Plain, Resolved, Settled;
    hide FirstRunIs, AllAside, AsideFree;
    var policy := if job.isOther then KeepBoth else job.collisionPolicy;
    if job.Marker() in disk.files {
      r := OrganizeFiles(disk, job, Parse(disk.files[job.Marker()]), false, policy, f, destination);
    } else {
      match job.named
      case NotAVideo =>
        PlannedIsNamed(job, f, destination, disk.files);
        return InvalidMedia;
      case NoName =>
        PlannedIsNamed(job, f, destination, disk.files);
        return Unnameable;
      case Named(path) =>
        NamedIsPlain(job);
        ghost var g := disk.files;
        r := OrganizeFiles(disk, job, path, true, policy, f, destination);
        if r.Done? { FirstRun(g, job, policy, Guard(path, job.completed).value, r.video, disk.files); }
    }
  }

  /** What a first run to the end has done, by the video's kind and the policy it was given. On a
      free destination, and always for `other` videos and KEEP_BOTH, the end is the moved files;
      a taken destination is kept by these, which settle on the least free number, and replaced
      otherwise. */
  ghost predicate FirstRunIs(f: Files, job: Job, c: Path, video: Path, h: Files) {
    && (c !in f ==> video == c)
    && (c in f && (job.isOther || job.collisionPolicy == KeepBoth) ==>
          && exists number: nat :: IsLeastFree(f, c, number) && video == Numbered(c, number))
    && (c in f && !job.isOther && job.collisionPolicy != KeepBoth ==> job.collisionPolicy == Replace && video == c)
    && (c !in f || job.isOther || job.collisionPolicy == KeepBoth ==>
          h == Stored(f, job, video) && video !in f && SparesOthers(f, job, video, h))
    && (c in f && !job.isOther && job.collisionPolicy == Replace && AsideFree(f, job.Aside()) ==> AllAside(f, job, c, h))
  }

  /** Nobody else's file changes, unless a sidecar's target holds a file of another size. */
  ghost predicate SparesOthers(f: Files, job: Job, video: Path, h: Files) {
    Startable(job, f, video) ==>
      (NobodyElseChanged(f, job, video, h) <==>
        forall k :: 0 <= k < |job.sidecars| ==>
          Target(job, video, k) in f ==> |f[Target(job, video, k)]| == |f[Source(job, k)]|)
  }

  lemma FirstRun(f: Files, job: Job, policy: Policy, c: Path, video: Path, h: Files)
    requires policy == if job.isOther then KeepBoth else job.collisionPolicy
    requires Resolved(f, policy, true, c, video) && !(c in f && policy == Ask)
    requires !(c in f && policy == Replace) ==> h == Stored(f, job, video)
    requires c in f && policy == Replace && AsideFree(f, job.Aside()) ==> AllAside(f, job, c, h)
    ensures FirstRunIs(f, job, c, video, h)
  {
    hide Stored, AllAside, AsideFree, Startable, NobodyElseChanged, Target, Source, Numbered;
    if c !in f || policy == KeepBoth {
      assert video !in f;
      if Startable(job, f, video) {
        ChangesNobodyUnlessOtherSize(f, job, video);
        VideoTarget(job, video);
      }
    }
  }

  lemma VideoTarget(job: Job, video: Path)
    ensures Target(job, video, |job.sidecars|) == video
  {
  }

  lemma PlannedIsNamed(job: Job, f: Files, destination: Path, g: Files)
    ensures Planned(job, f, destination, g) && job.Marker() !in g ==> job.named.Named?
  {
    hide Ready, Resumable, Settled, Guard, IsLeastFree, Numbered;
  }

  lemma MarkerSays(job: Job, f: Files, destination: Path, g: Files)
    requires Planned(job, f, destination, g)
    ensures job.Marker() in g ==> Parse(g[job.Marker()]) == destination && Plain(Name(destination))
  {
    SettledComponents(job, destination);
    PrintParse(destination);
    hide Parse, Print, Ready, Guard, Plain, Partial, Target, Source;
  }

  lemma NamedIsPlain(job: Job)
    requires Placed(job) && job.named.Named?
    ensures Plain(Name(job.named.path))
  {
  }
}
