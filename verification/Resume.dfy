/** Crash after crash, with the sidecars found again by each run
    (backend/app/library/organizer.py, lines 69-181; backend/app/jobs/pipeline.py, lines 307-328). */
module Resume {
  import opened Wrappers
  import opened Paths
  import opened Disks
  import opened Organizer
  import opened OrganizeStates
  import opened Organize

  // ------------------------------------------------------------- the sidecars still there

  /** The places of the sidecars that are still in the job's folder, in order. */
  function Kept(sidecars: seq<Sidecar>, g: Files): (kept: seq<nat>)
    ensures forall i :: 0 <= i < |kept| ==> kept[i] < |sidecars| && sidecars[kept[i]].path in g
    ensures forall i, j :: 0 <= i < j < |kept| ==> kept[i] < kept[j]
    ensures forall k :: 0 <= k < |sidecars| && sidecars[k].path in g ==> k in kept
  {
    if sidecars == [] then []
    else
      var n := |sidecars| - 1;
      Kept(sidecars[..n], g) + if sidecars[n].path in g then [n] else []
  }

  /** The arguments of a run on `g`: the job as it was, with the sidecars a new scan finds. */
  function Left(job: Job, g: Files): (left: Job)
    ensures |left.sidecars| == |Kept(job.sidecars, g)| && left == job.(sidecars := left.sidecars)
    ensures forall i :: 0 <= i < |left.sidecars| ==> left.sidecars[i] == job.sidecars[Kept(job.sidecars, g)[i]]
  {
    var kept := Kept(job.sidecars, g);
    job.(sidecars := seq(|kept|, i requires 0 <= i < |kept| => job.sidecars[kept[i]]))
  }

  /** `find_sidecars` on a later run. */
  method FindSidecars(disk: Disk, job: Job) returns (left: Job)
    ensures left == Left(job, disk.files)
  {
    var found: seq<Sidecar> := [];
    var k := 0;
    while k < |job.sidecars|
      invariant k <= |job.sidecars|
      invariant found == Left(job.(sidecars := job.sidecars[..k]), disk.files).sidecars
    {
      var sidecar := job.sidecars[k];
      KeptNext(job, disk.files, k);
      if sidecar.path in disk.files { found := found + [sidecar]; }
      k := k + 1;
    }
    assert job.sidecars[..k] == job.sidecars;
    left := job.(sidecars := found);
  }

  lemma KeptNext(job: Job, g: Files, k: nat)
    requires k < |job.sidecars|
    ensures Left(job.(sidecars := job.sidecars[..k + 1]), g).sidecars ==
            Left(job.(sidecars := job.sidecars[..k]), g).sidecars
            + if job.sidecars[k].path in g then [job.sidecars[k]] else []
  {
    assert job.sidecars[..k + 1][..k] == job.sidecars[..k];
  }

  /** The place in the whole job of the `k`th move of what is left. */
  function Place(job: Job, g: Files, k: nat): nat
    requires k <= |Left(job, g).sidecars|
  {
    if k < |Kept(job.sidecars, g)| then Kept(job.sidecars, g)[k] else |job.sidecars|
  }

  lemma PlaceFacts(job: Job, destination: Path, g: Files, k: nat)
    requires k <= |Left(job, g).sidecars|
    ensures Place(job, g, k) <= |job.sidecars|
    ensures Source(Left(job, g), k) == Source(job, Place(job, g, k))
    ensures Target(Left(job, g), destination, k) == Target(job, destination, Place(job, g, k))
    ensures Place(job, g, k) < |job.sidecars| ==> Source(job, Place(job, g, k)) in g
  {
    hide Kept;
  }

  lemma PlaceIncreases(job: Job, g: Files, k: nat, l: nat)
    requires k < l <= |Left(job, g).sidecars|
    ensures Place(job, g, k) < Place(job, g, l)
  {
    hide Kept;
  }

  /** Every sidecar that is still there, and the video, has its place in what is left. */
  lemma PlaceOf(job: Job, g: Files, i: nat) returns (k: nat)
    requires i <= |job.sidecars| && (i < |job.sidecars| ==> Source(job, i) in g)
    ensures k <= |Left(job, g).sidecars| && Place(job, g, k) == i
  {
    hide Kept;
    var kept := Kept(job.sidecars, g);
    if i == |job.sidecars| {
      k := |kept|;
    } else {
      assert i in kept;
      k :| k < |kept| && kept[k] == i;
    }
  }

  // ------------------------------------------------- what is left is a job of its own

  /** A disk from which what is left could have started to reach `g`: as at first where it has
      something to do, and as now everywhere else. */
  ghost function Base(f: Files, g: Files, left: Job, destination: Path): Files {
    map q | q in f.Keys + g.Keys && q in (if Touched(left, destination, q) then f else g) ::
      if Touched(left, destination, q) then f[q] else g[q]
  }

  lemma BaseAt(f: Files, g: Files, left: Job, destination: Path, q: Path)
    ensures Touched(left, destination, q) ==> Same(f, Base(f, g, left, destination), q)
    ensures !Touched(left, destination, q) ==> Same(g, Base(f, g, left, destination), q)
  {
    hide Touched;
  }

  lemma ItemIsTouched(job: Job, destination: Path, k: nat)
    requires k <= |job.sidecars|
    ensures Touched(job, destination, Source(job, k)) && Touched(job, destination, Target(job, destination, k))
    ensures Touched(job, destination, Partial(Target(job, destination, k)))
    ensures Touched(job, destination, job.Marker()) && Touched(job, destination, job.MarkerTemp())
  {
    hide Source, Target, Partial;
    assert TouchedBy(job, destination, k, Source(job, k));
    assert TouchedBy(job, destination, k, Target(job, destination, k));
    assert TouchedBy(job, destination, k, Partial(Target(job, destination, k)));
  }

  /** What is left touches nothing the whole job does not. */
  lemma LeftTouchesLess(job: Job, destination: Path, g: Files, q: Path)
    requires Touched(Left(job, g), destination, q)
    ensures Touched(job, destination, q)
  {
    hide Source, Target, Partial, Left, Kept, Place;
    var left := Left(job, g);
    if q != job.Marker() && q != job.MarkerTemp() {
      var k :| 0 <= k <= |left.sidecars| && TouchedBy(left, destination, k, q);
      PlaceFacts(job, destination, g, k);
      ItemIsTouched(job, destination, Place(job, g, k));
    }
  }

  /** A sidecar that has been moved is none of its business. */
  lemma MovedIsUntouched(job: Job, destination: Path, g: Files, i: nat)
    requires Separate(job, destination) && i < |job.sidecars| && Source(job, i) !in g
    ensures !Touched(Left(job, g), destination, Source(job, i))
    ensures !Touched(Left(job, g), destination, Target(job, destination, i))
    ensures !Touched(Left(job, g), destination, Partial(Target(job, destination, i)))
  {
    hide Source, Target, Partial, Left, Kept, Place;
    var left := Left(job, g);
    forall k | 0 <= k <= |left.sidecars|
      ensures !TouchedBy(left, destination, k, Source(job, i))
      ensures !TouchedBy(left, destination, k, Target(job, destination, i))
      ensures !TouchedBy(left, destination, k, Partial(Target(job, destination, i)))
    {
      PlaceFacts(job, destination, g, k);
      OtherPlace(job, destination, i, Place(job, g, k));
      SamePlace(job, left, destination, Place(job, g, k), k, Source(job, i));
      SamePlace(job, left, destination, Place(job, g, k), k, Target(job, destination, i));
      SamePlace(job, left, destination, Place(job, g, k), k, Partial(Target(job, destination, i)));
    }
    NotTheMarker(job, destination, i);
  }

  lemma SamePlace(job: Job, left: Job, destination: Path, i: nat, k: nat, q: Path)
    requires i <= |job.sidecars| && k <= |left.sidecars|
    requires Source(left, k) == Source(job, i) && Target(left, destination, k) == Target(job, destination, i)
    ensures TouchedBy(left, destination, k, q) <==> TouchedBy(job, destination, i, q)
  {
    hide Source, Target, Partial;
  }

  lemma NotTheMarker(job: Job, destination: Path, i: nat)
    requires Separate(job, destination) && i <= |job.sidecars|
    ensures var s, t, p := Source(job, i), Target(job, destination, i), Partial(Target(job, destination, i));
      && s != job.Marker() && t != job.Marker() && p != job.Marker()
      && s != job.MarkerTemp() && t != job.MarkerTemp() && p != job.MarkerTemp()
  {
    hide Source, Target, Partial;
  }

  lemma OtherPlace(job: Job, destination: Path, i: nat, k: nat)
    requires Separate(job, destination) && i <= |job.sidecars| && k <= |job.sidecars| && i != k
    ensures !TouchedBy(job, destination, k, Source(job, i)) && !TouchedBy(job, destination, k, Target(job, destination, i))
    ensures !TouchedBy(job, destination, k, Partial(Target(job, destination, i)))
  {
    hide Source, Target, Partial;
    var a, b := if i < k then i else k, if i < k then k else i;
    assert Source(job, a) != Source(job, b) && Target(job, destination, a) != Target(job, destination, b);
  }

  lemma LeftIsReady(f: Files, job: Job, destination: Path, g: Files)
    requires Ready(job, f, destination)
    ensures Ready(Left(job, g), Base(f, g, Left(job, g), destination), destination)
  {
    hide Source, Target, Partial, Kept, Left, Base, Touched, Place;
    var left := Left(job, g);
    var base := Base(f, g, left, destination);
    forall k | 0 <= k <= |left.sidecars|
      ensures Source(left, k) in base && Target(left, destination, k) !in base
      ensures Source(left, k) != left.Marker() && Source(left, k) != left.MarkerTemp()
    {
      PlaceFacts(job, destination, g, k);
      ItemIsTouched(left, destination, k);
      BaseAt(f, g, left, destination, Source(left, k));
      BaseAt(f, g, left, destination, Target(left, destination, k));
    }
    forall k, l | 0 <= k < l <= |left.sidecars|
      ensures Source(left, k) != Source(left, l) && Target(left, destination, k) != Target(left, destination, l)
    {
      PlaceIncreases(job, g, k, l);
      PlaceFacts(job, destination, g, k);
      PlaceFacts(job, destination, g, l);
    }
    ItemIsTouched(left, destination, |left.sidecars|);
    BaseAt(f, g, left, destination, left.Marker());
    VideoIsLast(left);
  }

  lemma VideoIsLast(job: Job)
    ensures Source(job, |job.sidecars|) == job.video
  {
  }

  /** From there a crash can have led to `g`. */
  lemma LeftIsResumable(f: Files, job: Job, destination: Path, g: Files)
    requires Ready(job, f, destination) && Resumable(f, job, destination, g)
    requires Ready(Left(job, g), Base(f, g, Left(job, g), destination), destination)
    ensures Resumable(Base(f, g, Left(job, g), destination), Left(job, g), destination, g)
  {
    hide Source, Target, Partial, Kept, Left, Base, Touched, Place, Print;
    var left := Left(job, g);
    var base := Base(f, g, left, destination);
    forall k | 0 <= k <= |left.sidecars|
      ensures OnItsWay(base[Source(left, k)], Source(left, k), Target(left, destination, k), g)
    {
      PlaceFacts(job, destination, g, k);
      var i := Place(job, g, k);
      assert OnItsWay(f[Source(job, i)], Source(job, i), Target(job, destination, i), g);
      ItemIsTouched(left, destination, k);
      BaseAt(f, g, left, destination, Source(left, k));
    }
    forall k, l | 0 <= k < l <= |left.sidecars| && Target(left, destination, l) in g ensures Source(left, k) !in g {
      PlaceIncreases(job, g, k, l);
      PlaceFacts(job, destination, g, k);
      PlaceFacts(job, destination, g, l);
    }
    if job.Marker() !in g {
      forall q | q != job.MarkerTemp() ensures Same(base, g, q) {
        BaseAt(f, g, left, destination, q);
        assert Same(f, g, q);
      }
    }
    forall q | !Touched(left, destination, q) ensures Same(base, g, q) {
      BaseAt(f, g, left, destination, q);
    }
  }

  /** Where what is left comes through, the whole job comes through: what had been moved
      before stays where it is. */
  lemma LeftReachesForAll(f: Files, job: Job, destination: Path, g: Files, h: Files)
    requires Ready(job, f, destination) && Separate(job, destination) && Resumable(f, job, destination, g)
    requires Ready(Left(job, g), Base(f, g, Left(job, g), destination), destination)
    requires Reached(Base(f, g, Left(job, g), destination), Left(job, g), destination, g, h)
    ensures Resumable(f, job, destination, h)
  {
    hide Source, Target, Partial, Kept, Left, Base, Touched, Place, Print, Separate;
    var left := Left(job, g);
    var base := Base(f, g, left, destination);
    forall i | 0 <= i <= |job.sidecars|
      ensures OnItsWay(f[Source(job, i)], Source(job, i), Target(job, destination, i), h)
    {
      ItemReached(f, job, destination, g, h, i);
    }
    forall i, l | 0 <= i < l <= |job.sidecars| && Target(job, destination, l) in h ensures Source(job, i) !in h {
      OrderReached(f, job, destination, g, h, i, l);
    }
    if job.Marker() !in h {
      forall q | q != job.MarkerTemp() ensures Same(f, h, q) {
        BaseAt(f, g, left, destination, q);
        assert Same(base, h, q) && Same(f, g, q);
      }
    }
    forall q | !Touched(job, destination, q) ensures Same(f, h, q) {
      if Touched(left, destination, q) { LeftTouchesLess(job, destination, g, q); }
      BaseAt(f, g, left, destination, q);
      assert Same(base, h, q) && Same(f, g, q);
    }
  }

  /** A moved sidecar's places are in `h` as they were in `g`. */
  lemma MovedStays(f: Files, job: Job, destination: Path, g: Files, h: Files, i: nat)
    requires Ready(job, f, destination) && Separate(job, destination)
    requires Ready(Left(job, g), Base(f, g, Left(job, g), destination), destination)
    requires Resumable(Base(f, g, Left(job, g), destination), Left(job, g), destination, h)
    requires i < |job.sidecars| && Source(job, i) !in g
    ensures Same(g, h, Source(job, i)) && Same(g, h, Target(job, destination, i))
    ensures Same(g, h, Partial(Target(job, destination, i)))
  {
    hide Source, Target, Partial, Kept, Left, Base, Touched, Place, Print, Separate, OnItsWay, Ready;
    var left := Left(job, g);
    var base := Base(f, g, left, destination);
    MovedIsUntouched(job, destination, g, i);
    BaseAt(f, g, left, destination, Source(job, i));
    BaseAt(f, g, left, destination, Target(job, destination, i));
    BaseAt(f, g, left, destination, Partial(Target(job, destination, i)));
    assert Same(base, h, Source(job, i)) && Same(base, h, Target(job, destination, i));
    assert Same(base, h, Partial(Target(job, destination, i)));
  }

  lemma ItemReached(f: Files, job: Job, destination: Path, g: Files, h: Files, i: nat)
    requires Ready(job, f, destination) && Separate(job, destination) && Resumable(f, job, destination, g)
    requires Ready(Left(job, g), Base(f, g, Left(job, g), destination), destination)
    requires Resumable(Base(f, g, Left(job, g), destination), Left(job, g), destination, h)
    requires i <= |job.sidecars|
    ensures OnItsWay(f[Source(job, i)], Source(job, i), Target(job, destination, i), h)
  {
    hide Source, Target, Partial, Kept, Left, Base, Touched, Place, Print, Separate;
    var left := Left(job, g);
    var base := Base(f, g, left, destination);
    assert OnItsWay(f[Source(job, i)], Source(job, i), Target(job, destination, i), g);
    if i < |job.sidecars| && Source(job, i) !in g {
      MovedStays(f, job, destination, g, h, i);
    } else {
      var k := PlaceOf(job, g, i);
      PlaceFacts(job, destination, g, k);
      assert OnItsWay(base[Source(left, k)], Source(left, k), Target(left, destination, k), h);
      ItemIsTouched(left, destination, k);
      BaseAt(f, g, left, destination, Source(left, k));
    }
  }

  lemma OrderReached(f: Files, job: Job, destination: Path, g: Files, h: Files, i: nat, l: nat)
    requires Ready(job, f, destination) && Separate(job, destination) && Resumable(f, job, destination, g)
    requires Ready(Left(job, g), Base(f, g, Left(job, g), destination), destination)
    requires Resumable(Base(f, g, Left(job, g), destination), Left(job, g), destination, h)
    requires i < l <= |job.sidecars| && Target(job, destination, l) in h
    ensures Source(job, i) !in h
  {
    hide Source, Target, Partial, Kept, Left, Base, Touched, Place, Print, Separate, OnItsWay;
    if Source(job, i) !in g {
      MovedStays(f, job, destination, g, h, i);
    } else if l < |job.sidecars| && Source(job, l) !in g {
      MovedStays(f, job, destination, g, h, l);
    } else {
      var k := PlaceOf(job, g, i);
      var m := PlaceOf(job, g, l);
      PlaceFacts(job, destination, g, k);
      PlaceFacts(job, destination, g, m);
      if m <= k {
        if m < k { PlaceIncreases(job, g, m, k); }
      }
    }
  }

  /** And where it finishes, the whole job has finished. */
  lemma LeftFinishesAll(f: Files, job: Job, destination: Path, g: Files, h: Files)
    requires Ready(job, f, destination) && Separate(job, destination) && Resumable(f, job, destination, g)
    requires Ready(Left(job, g), Base(f, g, Left(job, g), destination), destination)
    requires Reached(Base(f, g, Left(job, g), destination), Left(job, g), destination, g, h)
    requires Finished(Base(f, g, Left(job, g), destination), Left(job, g), destination, h)
    ensures Finished(f, job, destination, h)
  {
    hide Source, Target, Partial, Kept, Left, Base, Touched, Place, Print, Separate;
    var left := Left(job, g);
    var base := Base(f, g, left, destination);
    LeftReachesForAll(f, job, destination, g, h);
    forall i | 0 <= i <= |job.sidecars|
      ensures Arrived(f[Source(job, i)], Source(job, i), Target(job, destination, i), h)
    {
      assert OnItsWay(f[Source(job, i)], Source(job, i), Target(job, destination, i), h);
      if i < |job.sidecars| && Source(job, i) !in g {
        MovedStays(f, job, destination, g, h, i);
      } else {
        var k := PlaceOf(job, g, i);
        PlaceFacts(job, destination, g, k);
        assert Arrived(base[Source(left, k)], Source(left, k), Target(left, destination, k), h);
      }
    }
  }

  lemma LeftIsPlanned(f: Files, job: Job, destination: Path, g: Files)
    requires Placed(job) && Ready(job, f, destination) && Chosen(job, f, destination)
    requires Resumable(f, job, destination, g)
    ensures Placed(Left(job, g)) && Settled(job, destination)
    ensures Ready(Left(job, g), Base(f, g, Left(job, g), destination), destination)
    ensures Planned(Left(job, g), Base(f, g, Left(job, g), destination), destination, g)
  {
    ChosenIsSettled(job, f, destination);
    LeftIsPlaced(job, g);
    LeftIsReady(f, job, destination, g);
    LeftIsResumable(f, job, destination, g);
    hide Ready, Left, Base, Placed, Kept;
    if job.Marker() !in g {
      forall q | q != job.MarkerTemp() ensures Same(f, Base(f, g, Left(job, g), destination), q) {
        BaseAt(f, g, Left(job, g), destination, q);
        assert Same(f, g, q);
      }
      LeftIsChosen(f, job, Left(job, g), Base(f, g, Left(job, g), destination), destination);
    }
    hide Resumable, Settled, Chosen;
    SettledForLeft(job, g, destination);
  }

  lemma SettledForLeft(job: Job, g: Files, destination: Path)
    requires Settled(job, destination)
    ensures Settled(Left(job, g), destination)
  {
    hide Kept;
  }

  lemma LeftIsPlaced(job: Job, g: Files)
    requires Placed(job)
    ensures Placed(Left(job, g))
  {
    hide Source, Kept, Left, Place, Under, Plain, IsCanonical;
    var left := Left(job, g);
    forall k | 0 <= k <= |left.sidecars| ensures Outside(left, Source(left, k)) {
      PlaceFacts(job, [], g, k);
      assert Outside(job, Source(job, Place(job, g, k)));
    }
  }

  /** The choice of a destination looks at the completed folder only. */
  lemma LeftIsChosen(f: Files, job: Job, left: Job, base: Files, destination: Path)
    requires Placed(job) && Chosen(job, f, destination) && left == job.(sidecars := left.sidecars)
    requires forall q :: q != job.MarkerTemp() ==> Same(f, base, q)
    ensures Chosen(left, base, destination)
  {
    hide Numbered, Plain, Guard, Under, Placed;
    GuardedIsSettled(job);
    var c := Guard(job.named.path, job.completed).value;
    PlainIsName(c);
    AgreeInside(job, f, base, c);
    if c in f {
      var number: nat :| IsLeastFree(f, c, number) && destination == Numbered(c, number);
      forall q | q != job.MarkerTemp() ensures Same(base, f, q) {
        assert Same(f, base, q);
      }
      SameLeastFree(job, base, f, c, number);
    }
  }

  // ------------------------------------------------------------------ the main result

  /** Crash after crash: each run gets as many steps as `lives` says before it dies, each looks
      for sidecars anew, and one last run is left alone. However often and wherever the earlier
      runs died, every state was safe and the end is the one set of files that is `Finished`;
      the answer lists the sidecars the last run still found. */
  method CrashAndResume(disk: Disk, job: Job, lives: seq<nat>, ghost destination: Path) returns (r: Outcome, last: Job)
    requires disk.Valid() && Placed(job)
    requires Ready(job, disk.files, destination) && Chosen(job, disk.files, destination)
    modifies disk
    ensures disk.Valid() && old(disk.trace) <= disk.trace
    ensures forall i :: |old(disk.trace)| <= i < |disk.trace| ==>
      Safe(old(disk.files), job, destination, disk.trace[i])
    ensures Finished(old(disk.files), job, destination, disk.files)
    ensures last == job.(sidecars := last.sidecars) && (forall s :: s in last.sidecars ==> s in job.sidecars)
    ensures lives == [] ==> last == job
    ensures r == Done(destination, SidecarTargets(last, destination, |last.sidecars|), |old(disk.files)[job.video]|)
  {
    hide Resumable, Finished, Safe, Placed, Ready, Chosen, SidecarTargets, Left, Kept;
    ghost var f, start := disk.files, |disk.trace|;
    ReadyIsResumable(f, job, destination);
    var i := 0;
    while i < |lives|
      invariant i <= |lives| && disk.Valid() && old(disk.trace) <= disk.trace
      invariant i == 0 ==> disk.files == f
      invariant Resumable(f, job, destination, disk.files)
      invariant forall k :: start <= k < |disk.trace| ==> Resumable(f, job, destination, disk.trace[k])
    {
      disk.Start(DiesAfter(lives[i]));
      var _, _ := RunAgain(disk, job, f, destination);
      i := i + 1;
    }
    disk.Start(Forever);
    if lives == [] { AllAreLeft(job, disk.files, f, destination); }
    LeftAreOurs(job, disk.files);
    r, last := RunAgain(disk, job, f, destination);
    forall k | start <= k < |disk.trace| ensures Safe(f, job, destination, disk.trace[k]) {
      ResumableIsSafe(f, job, destination, disk.trace[k]);
    }
  }

  lemma LeftAreOurs(job: Job, g: Files)
    ensures forall s :: s in Left(job, g).sidecars ==> s in job.sidecars
  {
    hide Kept;
  }

  lemma AllAreLeft(job: Job, g: Files, f: Files, destination: Path)
    requires Ready(job, f, destination) && g == f
    ensures Left(job, g) == job
  {
    hide Target, Distinct;
    forall k | 0 <= k < |job.sidecars| ensures job.sidecars[k].path in g {
      assert Source(job, k) in f;
    }
    KeptAll(job.sidecars, g);
    assert Left(job, g).sidecars == job.sidecars;
  }

  lemma {:induction false} KeptAll(sidecars: seq<Sidecar>, g: Files)
    requires forall k :: 0 <= k < |sidecars| ==> sidecars[k].path in g
    ensures |Kept(sidecars, g)| == |sidecars| && forall k :: 0 <= k < |sidecars| ==> Kept(sidecars, g)[k] == k
  {
    if sidecars != [] {
      KeptAll(sidecars[..|sidecars| - 1], g);
    }
  }

  /** One run, crashed or not, with the sidecars it finds. */
  method RunAgain(disk: Disk, job: Job, ghost f: Files, ghost destination: Path) returns (r: Outcome, left: Job)
    requires disk.Valid() && Placed(job) && Ready(job, f, destination) && Chosen(job, f, destination)
    requires Resumable(f, job, destination, disk.files)
    modifies disk
    ensures disk.Valid() && old(disk.trace) <= disk.trace && left == Left(job, old(disk.files))
    ensures Resumable(f, job, destination, disk.files)
    ensures forall k :: |old(disk.trace)| <= k < |disk.trace| ==> Resumable(f, job, destination, disk.trace[k])
    ensures old(disk.life).Forever? ==>
      && Finished(f, job, destination, disk.files)
      && r == Done(destination, SidecarTargets(left, destination, |left.sidecars|), |f[job.video]|)
  {
    hide Resumable, Finished, Placed, Ready, Chosen, SidecarTargets, Left, Kept, Base, Separate, Settled, Reached;
    ghost var g, start := disk.files, |disk.trace|;
    left := FindSidecars(disk, job);
    LeftIsPlanned(f, job, destination, g);
    SettledIsPlaced(job, destination);
    ReadyIsSeparate(job, f, destination);
    ghost var base := Base(f, g, left, destination);
    MarkerSays(left, base, destination, g);
    VideoBytes(f, job, destination, g);
    r := OrganizeJob(disk, left, base, destination);
    forall k | start <= k < |disk.trace| ensures Resumable(f, job, destination, disk.trace[k]) {
      LeftReachesForAll(f, job, destination, g, disk.trace[k]);
    }
    LeftReachesForAll(f, job, destination, g, disk.files);
    if r.Done? { LeftFinishesAll(f, job, destination, g, disk.files); }
  }

  lemma SettledIsPlaced(job: Job, destination: Path)
    requires Settled(job, destination)
    ensures Under(Parent(destination), job.completed) && Plain(Name(destination))
  {
  }

  lemma VideoBytes(f: Files, job: Job, destination: Path, g: Files)
    requires Ready(job, f, destination)
    requires Ready(Left(job, g), Base(f, g, Left(job, g), destination), destination)
    ensures Base(f, g, Left(job, g), destination)[job.video] == f[job.video]
  {
    hide Target, Partial, Kept, Left, Base, Touched;
    var left := Left(job, g);
    VideoIsLast(left);
    ItemIsTouched(left, destination, |left.sidecars|);
    BaseAt(f, g, left, destination, job.video);
  }
}
