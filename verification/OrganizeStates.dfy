/** The states a crashed or resumed `organize` can be in (backend/app/library/organizer.py,
    lines 142-181), and what each of its steps does to them. */
module OrganizeStates {
  import opened Wrappers
  import opened Text
  import opened Paths
  import opened Disks
  import opened Organizer
  import Naming

  /** Where the `k`th move goes: a sidecar beside the video under the video's stem, the video
      last and to the destination itself. */
  function Target(job: Job, destination: Path, k: nat): Path
    requires k <= |job.sidecars|
  {
    if k < |job.sidecars| then
      var sidecar := job.sidecars[k];
      WithName(destination, Naming.SidecarName(Name(destination), sidecar.lang, Suffix(Name(sidecar.path))))
    else destination
  }

  /** Spelled out: the video's base, the sidecar's language, and its own extension. */
  lemma TargetSpelled(job: Job, folder: Path, base: string, ext: string, k: nat)
    requires k < |job.sidecars| && base != "" && ext != "" && '.' !in ext
    requires Naming.Clean(job.sidecars[k].lang) && Naming.Trimmed(job.sidecars[k].lang)
    ensures Target(job, folder + [base + "." + ext], k) ==
      folder + [base + "." + job.sidecars[k].lang + Suffix(Name(job.sidecars[k].path))]
  {
    hide Suffix, Naming.Clean, Naming.Trimmed, Naming.SidecarName;
    var destination := folder + [base + "." + ext];
    assert Parent(destination) == folder && Name(destination) == base + "." + ext;
    Naming.SidecarNameIs(base, ext, job.sidecars[k].lang, Suffix(Name(job.sidecars[k].path)));
  }

  /** An `other` video always keeps both, the rest if they are told to. */
  predicate KeepsBoth(job: Job) {
    job.isOther || job.collisionPolicy == KeepBoth
  }

  /** The destination one first run on `f` settles on, when it settles on a free one. */
  ghost predicate Chosen(job: Job, f: Files, destination: Path) {
    && job.named.Named?
    && var guarded := Guard(job.named.path, job.completed);
      && guarded.Some?
      && (if guarded.value !in f then destination == guarded.value
          else KeepsBoth(job)
               && exists number: nat :: IsLeastFree(f, guarded.value, number)
                                        && destination == Numbered(guarded.value, number))
  }

  /** No two of the job's files share a source or a target, and none is its marker. */
  ghost predicate Distinct(job: Job, destination: Path) {
    && (forall k :: 0 <= k <= |job.sidecars| ==>
          Source(job, k) != job.Marker() && Source(job, k) != job.MarkerTemp())
    && (forall k, l :: 0 <= k < l <= |job.sidecars| ==>
          Source(job, k) != Source(job, l) && Target(job, destination, k) != Target(job, destination, l))
  }

  /** The assumptions on the disk before the job's first run: its files are there, no two of
      them share a place, and nothing is at any of the names they will get. */
  ghost predicate Ready(job: Job, f: Files, destination: Path) {
    && job.Marker() !in f && job.video in f && Distinct(job, destination)
    && forall k :: 0 <= k <= |job.sidecars| ==> Source(job, k) in f && Target(job, destination, k) !in f
  }

  ghost predicate Touched(job: Job, destination: Path, q: Path) {
    || q == job.Marker() || q == job.MarkerTemp()
    || exists k :: 0 <= k <= |job.sidecars| && TouchedBy(job, destination, k, q)
  }

  ghost predicate TouchedBy(job: Job, destination: Path, k: nat, q: Path)
    requires k <= |job.sidecars|
  {
    q == Source(job, k) || q == Target(job, destination, k) || q == Partial(Target(job, destination, k))
  }

  /** One file on its way: whole at its source or whole at its target, whatever the partial
      file holds, and no partial file once the source is gone. */
  ghost predicate OnItsWay(bytes: Bytes, source: Path, target: Path, g: Files) {
    && (source in g || target in g)
    && (source in g ==> g[source] == bytes)
    && (target in g ==> g[target] == bytes)
    && (source !in g ==> Partial(target) !in g)
  }

  /** The states a crashed or resumed `organize` of this job can be in, starting from `f`. */
  ghost predicate Resumable(f: Files, job: Job, destination: Path, g: Files)
    requires Ready(job, f, destination)
  {
    && (forall k :: 0 <= k <= |job.sidecars| ==>
          OnItsWay(f[Source(job, k)], Source(job, k), Target(job, destination, k), g))
    && (forall k, l :: 0 <= k < l <= |job.sidecars| && Target(job, destination, l) in g ==> Source(job, k) !in g)
    && (job.Marker() in g ==> g[job.Marker()] == Print(destination))
    && (job.Marker() !in g ==> forall q :: q != job.MarkerTemp() ==> Same(f, g, q))
    && (forall q :: !Touched(job, destination, q) ==> Same(f, g, q))
  }

  /** Where every run to the end arrives: all files moved, the marker written, no partial and
      no temporary file left, everything else as it was. */
  ghost predicate Finished(f: Files, job: Job, destination: Path, g: Files)
    requires Ready(job, f, destination)
  {
    && (forall k :: 0 <= k <= |job.sidecars| ==>
          Arrived(f[Source(job, k)], Source(job, k), Target(job, destination, k), g))
    && job.Marker() in g && g[job.Marker()] == Print(destination) && job.MarkerTemp() !in g
    && (forall q :: !Touched(job, destination, q) ==> Same(f, g, q))
  }

  ghost predicate Arrived(bytes: Bytes, source: Path, target: Path, g: Files) {
    source !in g && target in g && g[target] == bytes && Partial(target) !in g
  }

  /** Only one set of files is finished, so a crashed and resumed run ends exactly where an
      uncrashed one does. */
  lemma FinishedIsUnique(f: Files, job: Job, destination: Path, g: Files, h: Files)
    requires Ready(job, f, destination)
    requires Finished(f, job, destination, g) && Finished(f, job, destination, h)
    ensures g == h
  {
    forall q ensures Same(g, h, q) {
      if exists k :: 0 <= k <= |job.sidecars| && TouchedBy(job, destination, k, q) {
        var k :| 0 <= k <= |job.sidecars| && TouchedBy(job, destination, k, q);
        assert Arrived(f[Source(job, k)], Source(job, k), Target(job, destination, k), g);
        assert Arrived(f[Source(job, k)], Source(job, k), Target(job, destination, k), h);
      } else if q != job.Marker() && q != job.MarkerTemp() {
        assert Same(f, g, q) && Same(f, h, q);
      }
    }
    SameEverywhere(g, h);
  }

  // ------------------------------------------------------------- what is never lost

  /** The promise at every moment: the video's bytes are whole at the source or at the
      destination, the destination never holds part of them, and once the video is there so
      are all its sidecars, whole; nobody else's file has changed. */
  ghost predicate Safe(f: Files, job: Job, destination: Path, g: Files)
    requires Ready(job, f, destination)
  {
    && ((job.video in g && g[job.video] == f[job.video]) || destination in g)
    && (destination in g ==> g[destination] == f[job.video])
    && (destination in g ==> forall k :: 0 <= k < |job.sidecars| ==>
          var target := Target(job, destination, k);
          target in g && g[target] == f[job.sidecars[k].path])
    && (forall q :: !Touched(job, destination, q) ==> Same(f, g, q))
  }

  lemma ResumableIsSafe(f: Files, job: Job, destination: Path, g: Files)
    requires Ready(job, f, destination) && Resumable(f, job, destination, g)
    ensures Safe(f, job, destination, g)
  {
    var n := |job.sidecars|;
    assert Source(job, n) == job.video && Target(job, destination, n) == destination;
    assert OnItsWay(f[Source(job, n)], Source(job, n), Target(job, destination, n), g);
    if destination in g {
      forall k | 0 <= k < n
        ensures var target := Target(job, destination, k); target in g && g[target] == f[job.sidecars[k].path]
      {
        assert Source(job, k) !in g;
        assert OnItsWay(f[Source(job, k)], Source(job, k), Target(job, destination, k), g);
      }
    }
  }

  /** `is_organized`: at the recorded path if there is one, else at the marker's. */
  predicate IsOrganized(job: Job, recorded: Option<Path>, g: Files) {
    && (recorded.Some? || job.Marker() in g)
    && (if recorded.Some? then recorded.value else Parse(g[job.Marker()])) in g
    && job.video !in g
  }

  /** The done-check is exact: in every state a crash can leave, with the destination recorded
      or not, it holds if and only if every file of the job has arrived. */
  lemma IsOrganizedIsExact(f: Files, job: Job, destination: Path, recorded: Option<Path>, g: Files)
    requires Placed(job) && Ready(job, f, destination) && Resumable(f, job, destination, g)
    requires forall i :: 0 <= i < |destination| ==> IsComponent(destination[i])
    requires recorded.Some? ==> recorded.value == destination
    ensures IsOrganized(job, recorded, g) <==> forall k :: 0 <= k <= |job.sidecars| ==>
      Arrived(f[Source(job, k)], Source(job, k), Target(job, destination, k), g)
  {
    hide Partial, Print, Parse, Placed;
    PrintParse(destination);
    var n := |job.sidecars|;
    assert Source(job, n) == job.video && Target(job, destination, n) == destination;
    VideoOnItsWay(f, job, destination, g);
    if IsOrganized(job, recorded, g) {
      forall k | 0 <= k <= n ensures Arrived(f[Source(job, k)], Source(job, k), Target(job, destination, k), g) {
        assert OnItsWay(f[Source(job, k)], Source(job, k), Target(job, destination, k), g);
        if k < n { assert Source(job, k) !in g; }
      }
    }
    if forall k :: 0 <= k <= n ==> Arrived(f[Source(job, k)], Source(job, k), Target(job, destination, k), g) {
      assert Arrived(f[Source(job, n)], Source(job, n), Target(job, destination, n), g);
      assert job.Marker() !in g ==> Same(f, g, job.video);
    }
  }

  /** Once all the moves are done the done-check holds without any recorded path: a process that
      dies before its checkpoint is committed leaves the next run nothing to do, and nothing to
      record. */
  lemma FinishedIsOrganized(f: Files, job: Job, destination: Path, g: Files)
    requires Ready(job, f, destination) && Finished(f, job, destination, g)
    requires forall i :: 0 <= i < |destination| ==> IsComponent(destination[i])
    ensures IsOrganized(job, None, g)
  {
    hide Partial, Print, Parse;
    PrintParse(destination);
    var n := |job.sidecars|;
    assert Arrived(f[Source(job, n)], Source(job, n), Target(job, destination, n), g);
  }

  lemma VideoOnItsWay(f: Files, job: Job, destination: Path, g: Files)
    requires Ready(job, f, destination) && Resumable(f, job, destination, g)
    ensures job.video in f && OnItsWay(f[job.video], job.video, destination, g)
    ensures job.video != job.MarkerTemp()
  {
    var n := |job.sidecars|;
    assert Source(job, n) == job.video && Target(job, destination, n) == destination;
    assert OnItsWay(f[Source(job, n)], Source(job, n), Target(job, destination, n), g);
  }

  // -------------------------------------------------- the names do not get in each other's way

  /** No two of the paths one job uses are the same. */
  ghost predicate Separate(job: Job, destination: Path) {
    && (forall k, l :: 0 <= k <= |job.sidecars| && 0 <= l <= |job.sidecars| ==>
          var s, t, p := Source(job, k), Target(job, destination, l), Partial(Target(job, destination, l));
          s != t && s != p && s != job.Marker() && s != job.MarkerTemp())
    && (forall k, l :: 0 <= k <= |job.sidecars| && 0 <= l <= |job.sidecars| ==>
          Target(job, destination, k) != Partial(Target(job, destination, l)))
    && (forall k :: 0 <= k <= |job.sidecars| ==>
          var t, p := Target(job, destination, k), Partial(Target(job, destination, k));
          t != job.Marker() && t != job.MarkerTemp() && p != job.Marker() && p != job.MarkerTemp())
    && (forall k, l :: 0 <= k < l <= |job.sidecars| ==>
          && Source(job, k) != Source(job, l) && Target(job, destination, k) != Target(job, destination, l)
          && Partial(Target(job, destination, k)) != Partial(Target(job, destination, l)))
  }

  lemma TargetPlace(job: Job, destination: Path, k: nat)
    requires Under(Parent(destination), job.completed) && Plain(Name(destination))
    requires k <= |job.sidecars|
    ensures var t := Target(job, destination, k);
      && Under(t, job.completed) && Under(Partial(t), job.completed)
      && Name(t) != "" && Name(t)[0] != '.' && t == Parent(destination) + [Name(t)]
  {
    TargetName(job, destination, k);
    hide Partial, Target, Plain, Under;
    var t := Target(job, destination, k);
    PartialName(t);
    IsItsName(t);
    IsItsName(Partial(t));
    UnderChild(Parent(destination), job.completed, Name(t));
    UnderChild(Parent(destination), job.completed, Name(Partial(t)));
  }

  lemma TargetName(job: Job, destination: Path, k: nat)
    requires Plain(Name(destination)) && k <= |job.sidecars|
    ensures var t := Target(job, destination, k);
      t != [] && Parent(t) == Parent(destination) && Name(t) != "" && Name(t)[0] != '.'
  {
    hide Naming.Sanitize, Suffix;
    var stem := Stem(Name(destination));
    StemStart(Name(destination));
    if k < |job.sidecars| {
      var sidecar := job.sidecars[k];
      var name := Naming.SidecarName(Name(destination), sidecar.lang, Suffix(Name(sidecar.path)));
      assert name == stem + "." + Naming.Sanitize(sidecar.lang, Naming.Smart) + Suffix(Name(sidecar.path));
      assert name[0] == stem[0];
    }
  }

  lemma StemStart(name: string)
    requires name != ""
    ensures Stem(name) != "" && Stem(name)[0] == name[0]
  {
  }

  lemma PartialInjective(a: Path, b: Path)
    requires Partial(a) == Partial(b) && a != [] && b != []
    ensures a == b
  {
    var x, y := Name(a), Name(b);
    assert Name(Partial(a)) == "." + x + PARTIAL_SUFFIX && Name(Partial(b)) == "." + y + PARTIAL_SUFFIX;
    hide Partial;
    MiddleEqual(".", x, y, PARTIAL_SUFFIX);
    PartialName(a);
    PartialName(b);
    IsItsName(a);
    IsItsName(b);
  }

  /** Sources outside and targets inside the completed folder keep out of each other's way. */
  lemma DistinctIsSeparate(job: Job, destination: Path)
    requires Placed(job) && Distinct(job, destination)
    requires Under(Parent(destination), job.completed) && Plain(Name(destination))
    ensures Separate(job, destination)
  {
    hide Partial, Target, Plain, Source;
    var n := |job.sidecars|;
    forall k | 0 <= k <= n
      ensures Outside(job, Source(job, k))
      ensures var t := Target(job, destination, k);
        && Under(t, job.completed) && Under(Partial(t), job.completed) && t != Partial(t)
        && Name(t) != "" && Name(t)[0] != '.' && Name(Partial(t)) != "" && Name(Partial(t))[0] == '.'
    {
      TargetPlace(job, destination, k);
      PartialName(Target(job, destination, k));
    }
    forall k, l | 0 <= k < l <= n
      ensures Partial(Target(job, destination, k)) != Partial(Target(job, destination, l))
    {
      TargetName(job, destination, k);
      TargetName(job, destination, l);
      if Partial(Target(job, destination, k)) == Partial(Target(job, destination, l)) {
        PartialInjective(Target(job, destination, k), Target(job, destination, l));
      }
    }
  }

  lemma ReadyIsSeparate(job: Job, f: Files, destination: Path)
    requires Placed(job) && Ready(job, f, destination)
    requires Under(Parent(destination), job.completed) && Plain(Name(destination))
    ensures Separate(job, destination)
  {
    hide Partial, Target, Plain, Source, Placed, Separate;
    DistinctIsSeparate(job, destination);
  }

  /** A destination that the guard accepts as it is, under a plain name. */
  ghost predicate Settled(job: Job, destination: Path) {
    && Under(Parent(destination), job.completed) && Plain(Name(destination))
    && IsCanonical(Parent(destination)) && Guard(destination, job.completed) == Some(destination)
  }

  lemma SettledComponents(job: Job, destination: Path)
    requires Settled(job, destination)
    ensures forall i :: 0 <= i < |destination| ==> IsComponent(destination[i])
  {
    forall i | 0 <= i < |destination| ensures IsComponent(destination[i]) {
      if i < |destination| - 1 { assert destination[i] == Parent(destination)[i]; }
    }
  }

  /** So is every destination a run chooses. */
  lemma ChosenIsSettled(job: Job, f: Files, destination: Path)
    requires Placed(job) && Chosen(job, f, destination)
    ensures Settled(job, destination)
  {
    assert IsCanonical(job.completed);
    hide Numbered, Plain, IsCanonical, Placed, Settled, Guard, IsLeastFree;
    var guarded := Guard(job.named.path, job.completed).value;
    GuardedIsSettled(job);
    if destination != guarded {
      var number: nat :| IsLeastFree(f, guarded, number) && destination == Numbered(guarded, number);
      NumberedIsSettled(job, guarded, number);
    }
  }

  lemma GuardedIsSettled(job: Job)
    requires Placed(job) && job.named.Named? && Guard(job.named.path, job.completed).Some?
    ensures Settled(job, Guard(job.named.path, job.completed).value)
  {
    var p := Guard(job.named.path, job.completed).value;
    assert IsCanonical(job.completed) && Plain(Name(job.named.path));
    hide Placed, Guard, IsCanonical, Plain, Resolve;
    ResolveCanonical(job.completed);
    AcceptedIsInside(job.named.path, job.completed);
    UnderParent(p, job.completed);
  }

  lemma NumberedIsSettled(job: Job, p: Path, number: nat)
    requires IsCanonical(job.completed) && Settled(job, p)
    ensures Settled(job, Numbered(p, number))
  {
    NumberedIsPlain(p, number);
    hide Numbered, Plain, Guard;
    var q := Numbered(p, number);
    assert Name(q) != "" && q != [] by { PlainIsName(q); }
    RejectedIsOutside(q, job.completed);
  }

  lemma PlainIsName(p: Path)
    requires Plain(Name(p))
    ensures Name(p) != "" && p != []
  {
  }

  lemma NumberedIsPlain(destination: Path, number: nat)
    requires Plain(Name(destination))
    ensures Plain(Name(Numbered(destination, number))) && Parent(Numbered(destination, number)) == Parent(destination)
  {
    var name := Name(destination);
    StemAndSuffix(name);
    var result := Name(Numbered(destination, number));
    assert result == Stem(name) + " (" + Decimal(number) + ")" + Suffix(name);
    assert '/' !in Stem(name) && '/' !in Suffix(name) && '/' !in Decimal(number);
    StemStart(name);
    assert result[0] == name[0];
  }

  // ------------------------------------------------------------------ each step keeps the promise

  lemma ReadyIsResumable(f: Files, job: Job, destination: Path)
    requires Ready(job, f, destination)
    ensures Resumable(f, job, destination, f)
  {
  }

  lemma SameItem(job: Job, destination: Path, g: Files, h: Files, k: nat)
    requires Separate(job, destination) && k <= |job.sidecars|
    requires forall q :: q != job.MarkerTemp() ==> Same(g, h, q)
    ensures var s, t := Source(job, k), Target(job, destination, k);
      Same(g, h, s) && Same(g, h, t) && Same(g, h, Partial(t))
  {
    hide Same, Partial, Target, Source;
    var s, t := Source(job, k), Target(job, destination, k);
    assert s != job.MarkerTemp() && t != job.MarkerTemp();
    assert Same(g, h, s) && Same(g, h, t) && Same(g, h, Partial(t));
  }

  lemma MarkersDiffer(job: Job)
    ensures job.Marker() != job.MarkerTemp()
  {
    assert |Name(job.Marker())| < |Name(job.MarkerTemp())|;
  }

  /** Whatever happens to the temporary marker file. */
  lemma MarkerTempStep(f: Files, job: Job, destination: Path, g: Files, h: Files)
    requires Ready(job, f, destination) && Separate(job, destination) && Resumable(f, job, destination, g)
    requires forall q :: q != job.MarkerTemp() ==> Same(g, h, q)
    ensures Resumable(f, job, destination, h)
  {
    hide Partial, Target, Source;
    forall k | 0 <= k <= |job.sidecars|
      ensures OnItsWay(f[Source(job, k)], Source(job, k), Target(job, destination, k), h)
    {
      assert OnItsWay(f[Source(job, k)], Source(job, k), Target(job, destination, k), g);
      SameItem(job, destination, g, h, k);
    }
    MarkersDiffer(job);
    assert Same(g, h, job.Marker());
    if job.Marker() !in h {
      forall q | q != job.MarkerTemp() ensures Same(f, h, q) {
        assert Same(g, h, q) && Same(f, g, q);
      }
    }
    forall k, l | 0 <= k < l <= |job.sidecars| && Target(job, destination, l) in h ensures Source(job, k) !in h {
      SameItem(job, destination, g, h, k);
      SameItem(job, destination, g, h, l);
    }
    forall q | !Touched(job, destination, q) ensures Same(f, h, q) { assert Same(g, h, q); }
  }

  /** The marker goes down in one rename. */
  lemma MarkerStep(f: Files, job: Job, destination: Path, g: Files, h: Files)
    requires Ready(job, f, destination) && Separate(job, destination) && Resumable(f, job, destination, g)
    requires h == (g - {job.MarkerTemp()})[job.Marker() := Print(destination)]
    ensures Resumable(f, job, destination, h)
  {
    hide Partial, Target, Source;
    forall k | 0 <= k <= |job.sidecars|
      ensures OnItsWay(f[Source(job, k)], Source(job, k), Target(job, destination, k), h)
    {
      assert OnItsWay(f[Source(job, k)], Source(job, k), Target(job, destination, k), g);
    }
    forall q | !Touched(job, destination, q) ensures Same(f, h, q) { assert Same(f, g, q); }
  }

  /** The files after the first `k` moves of a job, wherever it started. */
  function AfterMoves(f: Files, job: Job, destination: Path, k: nat): Files
    requires k <= |job.sidecars| + 1
  {
    if k == 0 then f
    else MoveResult(AfterMoves(f, job, destination, k - 1), Source(job, k - 1), Target(job, destination, k - 1))
  }

  /** The files once the marker is down. */
  function Marked(f: Files, job: Job, destination: Path): Files {
    (f - {job.MarkerTemp()})[job.Marker() := Print(destination)]
  }

  /** The moves before the `k`th are complete. */
  ghost predicate MovedUpTo(f: Files, job: Job, destination: Path, k: nat, g: Files)
    requires Ready(job, f, destination) && k <= |job.sidecars| + 1
  {
    && job.Marker() in g && job.MarkerTemp() !in g
    && forall i :: 0 <= i < k ==> Arrived(f[Source(job, i)], Source(job, i), Target(job, destination, i), g)
  }

  lemma MidwayIsOnItsWay(bytes: Bytes, source: Path, target: Path, g: Files, h: Files)
    requires OnItsWay(bytes, source, target, g) && Midway(g, source, target, h)
    ensures OnItsWay(bytes, source, target, h)
  {
  }

  lemma OtherItem(job: Job, destination: Path, k: nat, i: nat, g: Files, h: Files)
    requires Separate(job, destination) && k <= |job.sidecars| && i <= |job.sidecars| && i != k
    requires Midway(g, Source(job, k), Target(job, destination, k), h)
    ensures Same(g, h, Source(job, i)) && Same(g, h, Target(job, destination, i))
    ensures Same(g, h, Partial(Target(job, destination, i)))
  {
    hide Same, Partial, Target, Source;
    var a, b := if i < k then i else k, if i < k then k else i;
    assert Source(job, a) != Source(job, b) && Target(job, destination, a) != Target(job, destination, b);
    assert Same(g, h, Source(job, i));
    assert Same(g, h, Target(job, destination, i));
    assert Same(g, h, Partial(Target(job, destination, i)));
  }

  /** Any state inside the `k`th move can be resumed, and leaves the earlier moves alone. */
  lemma MoveStep(f: Files, job: Job, destination: Path, k: nat, g: Files, h: Files)
    requires Ready(job, f, destination) && Separate(job, destination) && Resumable(f, job, destination, g)
    requires k <= |job.sidecars| && MovedUpTo(f, job, destination, k, g)
    requires Midway(g, Source(job, k), Target(job, destination, k), h)
    ensures Resumable(f, job, destination, h) && MovedUpTo(f, job, destination, k, h)
  {
    hide Partial, Target, Source, Print;
    forall i | 0 <= i <= |job.sidecars|
      ensures OnItsWay(f[Source(job, i)], Source(job, i), Target(job, destination, i), h)
      ensures i != k ==> Same(g, h, Source(job, i)) && Same(g, h, Target(job, destination, i))
                         && Same(g, h, Partial(Target(job, destination, i)))
    {
      assert OnItsWay(f[Source(job, i)], Source(job, i), Target(job, destination, i), g);
      if i == k {
        MidwayIsOnItsWay(f[Source(job, k)], Source(job, k), Target(job, destination, k), g, h);
      } else {
        OtherItem(job, destination, k, i, g, h);
      }
    }
    assert Same(g, h, job.Marker()) && Same(g, h, job.MarkerTemp());
    forall i, l | 0 <= i < l <= |job.sidecars| && Target(job, destination, l) in h ensures Source(job, i) !in h {
      if i < k {
        assert Arrived(f[Source(job, i)], Source(job, i), Target(job, destination, i), g);
      } else {
        assert Same(g, h, Target(job, destination, l));
        assert Source(job, i) !in g;
      }
    }
    forall q | !Touched(job, destination, q) ensures Same(f, h, q) {
      assert !TouchedBy(job, destination, k, q);
      assert Same(g, h, q) && Same(f, g, q);
    }
    forall i | 0 <= i < k ensures Arrived(f[Source(job, i)], Source(job, i), Target(job, destination, i), h) {
      assert Arrived(f[Source(job, i)], Source(job, i), Target(job, destination, i), g);
    }
  }

  /** A finished move has arrived, wherever the last crash had left it. */
  lemma MoveArrives(f: Files, job: Job, destination: Path, k: nat, g: Files, h: Files)
    requires Ready(job, f, destination) && Separate(job, destination) && Resumable(f, job, destination, g)
    requires k <= |job.sidecars| && MovedUpTo(f, job, destination, k, g) && MovedUpTo(f, job, destination, k, h)
    requires h == MoveResult(g, Source(job, k), Target(job, destination, k))
    ensures MovedUpTo(f, job, destination, k + 1, h)
  {
    hide Partial, Target, Source;
    assert OnItsWay(f[Source(job, k)], Source(job, k), Target(job, destination, k), g);
    assert Arrived(f[Source(job, k)], Source(job, k), Target(job, destination, k), h);
  }

  lemma AllMoved(f: Files, job: Job, destination: Path, g: Files)
    requires Ready(job, f, destination) && Resumable(f, job, destination, g)
    requires MovedUpTo(f, job, destination, |job.sidecars| + 1, g)
    ensures Finished(f, job, destination, g)
  {
  }
}
