/** What a run of `organize` does to files that were there before it
    (backend/app/library/organizer.py, lines 159-181 and 215-233). */
module Existing {
  import opened Wrappers
  import opened Text
  import opened Paths
  import opened Disks
  import opened Organizer
  import opened OrganizeStates
  import Naming

  /** The files after all the moves of a job that started at `f`. */
  function Stored(f: Files, job: Job, destination: Path): Files {
    AfterMoves(Marked(f, job, destination), job, destination, |job.sidecars| + 1)
  }

  /** All the job's files are there; its targets may be taken. */
  ghost predicate Startable(job: Job, f: Files, destination: Path) {
    Separate(job, destination) && forall k :: 0 <= k <= |job.sidecars| ==> Source(job, k) in f
  }

  /** What the move makes of a target: the file that is there, if it has the size of the one
      that comes, or else the one that comes. */
  function Settles(f: Files, source: Path, target: Path): Bytes
    requires source in f
  {
    if target in f && |f[target]| == |f[source]| then f[target] else f[source]
  }

  /** After `k` moves: the first `k` targets are settled, the other items are as they were. */
  ghost predicate SettledUpTo(f: Files, job: Job, destination: Path, k: nat, g: Files) {
    && Startable(job, f, destination)
    && (forall i :: 0 <= i <= |job.sidecars| ==>
          if i < k then
            && Source(job, i) !in g && Target(job, destination, i) in g
            && g[Target(job, destination, i)] == Settles(f, Source(job, i), Target(job, destination, i))
          else
            Same(f, g, Source(job, i)) && Same(f, g, Target(job, destination, i)))
    && forall q :: !Touched(job, destination, q) ==> Same(f, g, q)
  }

  lemma MarkedIsStart(f: Files, job: Job, destination: Path)
    requires Startable(job, f, destination)
    ensures SettledUpTo(f, job, destination, 0, Marked(f, job, destination))
  {
    hide Target, Source, Partial, Print, Same, Separate;
    var g := Marked(f, job, destination);
    forall i | 0 <= i <= |job.sidecars|
      ensures Same(f, g, Source(job, i)) && Same(f, g, Target(job, destination, i))
    {
      ApartFromMarkers(job, destination, i);
      MarkedElsewhere(f, job, destination, Source(job, i));
      MarkedElsewhere(f, job, destination, Target(job, destination, i));
    }
    forall q | !Touched(job, destination, q) ensures Same(f, g, q) {
      MarkedElsewhere(f, job, destination, q);
    }
  }

  lemma MarkedElsewhere(f: Files, job: Job, destination: Path, q: Path)
    requires q != job.Marker() && q != job.MarkerTemp()
    ensures Same(f, Marked(f, job, destination), q)
  {
    hide Print;
  }

  lemma ApartFromMarkers(job: Job, destination: Path, i: nat)
    requires Separate(job, destination) && i <= |job.sidecars|
    ensures var s, t := Source(job, i), Target(job, destination, i);
      && s != job.Marker() && t != job.Marker() && s != job.MarkerTemp() && t != job.MarkerTemp()
      && s != t && s != Partial(t) && t != Partial(t)
  {
    hide Source, Target, Partial;
  }

  lemma MoveSettles(g: Files, source: Path, target: Path)
    requires source in g && source != target && target != Partial(target) && source != Partial(target)
    ensures var h := MoveResult(g, source, target);
      && source !in h && target in h && h[target] == Settles(g, source, target)
      && forall q :: q != source && q != target && q != Partial(target) ==> Same(g, h, q)
  {
    hide Partial;
  }

  lemma ApartFromOther(job: Job, destination: Path, i: nat, k: nat)
    requires Separate(job, destination) && i <= |job.sidecars| && k <= |job.sidecars| && i != k
    ensures var s, t := Source(job, i), Target(job, destination, i);
      var u, v := Source(job, k), Target(job, destination, k);
      && s != u && s != v && s != Partial(v) && t != u && t != v && t != Partial(v)
  {
    hide Source, Target, Partial;
    var a, b := if i < k then i else k, if i < k then k else i;
    assert Source(job, a) != Source(job, b) && Target(job, destination, a) != Target(job, destination, b);
  }

  lemma SettledNext(f: Files, job: Job, destination: Path, k: nat, g: Files)
    requires k <= |job.sidecars| && SettledUpTo(f, job, destination, k, g)
    ensures SettledUpTo(f, job, destination, k + 1, MoveResult(g, Source(job, k), Target(job, destination, k)))
  {
    hide Target, Source, Partial, MoveResult, Separate;
    var s, t := Source(job, k), Target(job, destination, k);
    var h := MoveResult(g, s, t);
    ApartFromMarkers(job, destination, k);
    assert Same(f, g, s) && Same(f, g, t);
    MoveSettles(g, s, t);
    forall i | 0 <= i <= |job.sidecars| && i != k
      ensures Same(g, h, Source(job, i)) && Same(g, h, Target(job, destination, i))
    {
      ApartFromOther(job, destination, i, k);
    }
    forall q | !Touched(job, destination, q) ensures Same(f, h, q) {
      assert !TouchedBy(job, destination, k, q);
      assert Same(f, g, q) && Same(g, h, q);
    }
  }

  lemma {:induction false} SettledAfter(f: Files, job: Job, destination: Path, k: nat)
    requires Startable(job, f, destination) && k <= |job.sidecars| + 1
    ensures SettledUpTo(f, job, destination, k, AfterMoves(Marked(f, job, destination), job, destination, k))
    decreases k
  {
    hide Target, Source, MoveResult, Separate, SettledUpTo, Startable, Marked;
    if k == 0 {
      MarkedIsStart(f, job, destination);
    } else {
      SettledAfter(f, job, destination, k - 1);
      SettledNext(f, job, destination, k - 1, AfterMoves(Marked(f, job, destination), job, destination, k - 1));
    }
  }

  // ------------------------------------------------------------------ main results

  /** Every file of the job is at its target, whole. */
  ghost predicate AllArrive(f: Files, job: Job, destination: Path, h: Files)
    requires Startable(job, f, destination)
  {
    forall k :: 0 <= k <= |job.sidecars| ==>
      Target(job, destination, k) in h && h[Target(job, destination, k)] == f[Source(job, k)]
  }

  /** The job's own names: what it moves, its marker, and the partial files of its targets. */
  ghost predicate Own(job: Job, destination: Path, q: Path) {
    || q == job.Marker() || q == job.MarkerTemp()
    || exists k :: 0 <= k <= |job.sidecars| && (q == Source(job, k) || q == Partial(Target(job, destination, k)))
  }

  /** No file that was there before has changed. */
  ghost predicate NobodyElseChanged(f: Files, job: Job, destination: Path, h: Files) {
    forall q :: q in f && !Own(job, destination, q) ==> Same(f, h, q)
  }

  /** What becomes of each target: the moved bytes arrive unless another file of the same size
      was there, and a file that was there survives only if it has the same size. */
  lemma EachTarget(f: Files, job: Job, destination: Path, k: nat)
    requires Startable(job, f, destination) && k <= |job.sidecars|
    ensures var h, s, t := Stored(f, job, destination), Source(job, k), Target(job, destination, k);
      && s !in h && t in h
      && (h[t] == f[s] <==> !(t in f && |f[t]| == |f[s]| && f[t] != f[s]))
      && (t in f ==> (h[t] == f[t] <==> |f[t]| == |f[s]|))
  {
    hide Target, Source, AfterMoves, Marked, Separate, Same;
    SettledAfter(f, job, destination, |job.sidecars| + 1);
  }

  /** All files of the job arrive if and only if no target holds another file of equal size. */
  lemma ArriveUnlessSameSize(f: Files, job: Job, destination: Path)
    requires Startable(job, f, destination)
    ensures AllArrive(f, job, destination, Stored(f, job, destination)) <==>
      forall k :: 0 <= k <= |job.sidecars| ==>
        var s, t := Source(job, k), Target(job, destination, k);
        t in f && |f[t]| == |f[s]| ==> f[t] == f[s]
  {
    hide Target, Source, Stored, Startable;
    forall k | 0 <= k <= |job.sidecars|
      ensures var h, s, t := Stored(f, job, destination), Source(job, k), Target(job, destination, k);
        s in f && t in h && (h[t] == f[s] <==> !(t in f && |f[t]| == |f[s]| && f[t] != f[s]))
    {
      EachTarget(f, job, destination, k);
      SourceIsThere(f, job, destination, k);
    }
  }

  lemma SourceIsThere(f: Files, job: Job, destination: Path, k: nat)
    requires Startable(job, f, destination) && k <= |job.sidecars|
    ensures Source(job, k) in f
  {
    hide Separate, Source;
  }

  /** No file of anybody else changes if and only if every target that is taken holds a file of
      equal size. Sidecar names are never checked for collisions: KEEP_BOTH, which finds a free
      name for the video, still overwrites a subtitle of another size at the new stem. */
  lemma ChangesNobodyUnlessOtherSize(f: Files, job: Job, destination: Path)
    requires Startable(job, f, destination)
    ensures NobodyElseChanged(f, job, destination, Stored(f, job, destination)) <==>
      forall k :: 0 <= k <= |job.sidecars| ==>
        Target(job, destination, k) in f ==> |f[Target(job, destination, k)]| == |f[Source(job, k)]|
  {
    hide Target, Source, Stored, Separate, Partial;
    var h := Stored(f, job, destination);
    forall k | 0 <= k <= |job.sidecars| && Target(job, destination, k) in f
      ensures Same(f, h, Target(job, destination, k)) <==> |f[Target(job, destination, k)]| == |f[Source(job, k)]|
      ensures !Own(job, destination, Target(job, destination, k))
    {
      EachTarget(f, job, destination, k);
      TargetIsNotOwn(job, destination, k);
    }
    if forall k :: 0 <= k <= |job.sidecars| ==>
         Target(job, destination, k) in f ==> |f[Target(job, destination, k)]| == |f[Source(job, k)]|
    {
      forall q | q in f && !Own(job, destination, q) ensures Same(f, h, q) {
        if Touched(job, destination, q) {
          var k :| 0 <= k <= |job.sidecars| && TouchedBy(job, destination, k, q);
          assert q == Target(job, destination, k);
        } else {
          UntouchedStays(f, job, destination, q);
        }
      }
    }
  }

  lemma UntouchedStays(f: Files, job: Job, destination: Path, q: Path)
    requires Startable(job, f, destination) && !Touched(job, destination, q)
    ensures Same(f, Stored(f, job, destination), q)
  {
    hide Target, Source, AfterMoves, Marked, Separate, Same, Touched;
    SettledAfter(f, job, destination, |job.sidecars| + 1);
  }

  lemma TargetIsNotOwn(job: Job, destination: Path, k: nat)
    requires Separate(job, destination) && k <= |job.sidecars|
    ensures !Own(job, destination, Target(job, destination, k))
  {
    hide Target, Source, Partial;
  }

  // ------------------------------------------------------------------ a real input

  /** A movie with one subtitle, about to go to `/tv/v.mkv`. */
  const DEMO := Job(["job"], ["job", "x.mkv"], [Sidecar(["job", "x.en.srt"], "en")], Named(["tv", "v.mkv"]), false, KeepBoth,
                    ["tv"], ["inc"])

  const TAKEN: Path := ["tv", "v.en.srt"]

  /** The disk before: the subtitle's name is taken by a file that holds `other`. */
  function Demo(other: Bytes): Files {
    map[["job", "x.mkv"] := "video", ["job", "x.en.srt"] := "new", TAKEN := other]
  }

  /** A language code of lower-case letters is its own sanitized form. */
  lemma LowerCaseIsClean(s: string)
    requires forall i :: 0 <= i < |s| ==> 'a' <= s[i] <= 'z'
    ensures Naming.Clean(s) && Naming.Trimmed(s)
  {
  }

  lemma DemoLanguage()
    ensures Naming.Sanitize("en", Naming.Smart) == "en"
  {
    hide Naming.Sanitize, Naming.Clean, Naming.Trimmed;
    LowerCaseIsClean("en");
    Naming.SanitizeOfClean("en", Naming.Smart);
  }

  lemma DemoNames()
    ensures Stem("v.mkv") == "v" && Suffix("x.en.srt") == ".srt"
  {
    hide Stem, Suffix;
    ExtensionIsSuffix("v", ".mkv");
    assert "v" + ".mkv" == "v.mkv";
    ExtensionIsSuffix("x.en", ".srt");
    assert "x.en" + ".srt" == "x.en.srt";
  }

  lemma DemoTarget()
    ensures Target(DEMO, ["tv", "v.mkv"], 0) == TAKEN && Target(DEMO, ["tv", "v.mkv"], 1) == ["tv", "v.mkv"]
  {
    hide Naming.Sanitize, Stem, Suffix;
    DemoLanguage();
    DemoNames();
    assert "v" + "." + "en" + ".srt" == "v.en.srt";
  }

  lemma DemoNamesArePlain()
    ensures Plain("v.mkv") && IsComponent("tv") && "tv" != "." && "tv" != ".."
    ensures "tv" != "job" && "tv" != "inc" && "job" != "inc"
  {
    assert "v.mkv"[0] == 'v' && |"v.mkv"| == 5 && |"tv"| == 2 && |"job"| == 3;
    assert "job"[0] == 'j' && "inc"[0] == 'i' && "tv"[0] == 't';
  }

  lemma DemoIsPlaced()
    ensures Placed(DEMO) && Plain("v.mkv")
  {
    DemoNamesArePlain();
    hide Plain, IsComponent;
    assert '/' !in "tv" && '/' !in "v.mkv" by { PlainName("v.mkv"); PlainHasNoSlash("tv"); }
    forall k | 0 <= k <= 1 ensures Outside(DEMO, Source(DEMO, k)) {
      assert Source(DEMO, k)[0] == "job";
    }
    assert DEMO.Marker()[0] == "job" && DEMO.MarkerTemp()[0] == "job" && DEMO.Aside()[0] == "inc";
  }

  lemma PlainName(s: string)
    requires Plain(s)
    ensures '/' !in s
  {
  }

  lemma PlainHasNoSlash(s: string)
    requires IsComponent(s)
    ensures '/' !in s
  {
  }

  lemma DemoIsDistinct()
    ensures Distinct(DEMO, ["tv", "v.mkv"])
  {
    DemoTarget();
    hide Target;
    var s0, s1 := Source(DEMO, 0), Source(DEMO, 1);
    assert Name(s0) == "x.en.srt" && Name(s1) == "x.mkv";
    assert Name(DEMO.Marker()) == MARKER && Name(DEMO.MarkerTemp()) == MARKER + ".tmp";
    assert |"x.mkv"| == 5 && |"x.en.srt"| == 8 && |MARKER| == 15 && |MARKER + ".tmp"| == 19;
    assert |"v.mkv"| == 5 && |"v.en.srt"| == 8;
    assert TAKEN[1] == "v.en.srt";
  }

  lemma DemoIsSeparate()
    ensures Separate(DEMO, ["tv", "v.mkv"])
  {
    DemoIsPlaced();
    DemoIsDistinct();
    hide Target, Placed, Distinct, Plain;
    DistinctIsSeparate(DEMO, ["tv", "v.mkv"]);
  }

  lemma DemoStarts(other: Bytes)
    ensures Startable(DEMO, Demo(other), ["tv", "v.mkv"])
  {
    DemoIsSeparate();
    hide Separate;
  }

  /** A subtitle of the same size: the new one is deleted and the old one stays. */
  lemma NewSubtitleIsLost()
    ensures var h := Stored(Demo("old"), DEMO, ["tv", "v.mkv"]);
      TAKEN in h && h[TAKEN] == "old" && ["job", "x.en.srt"] !in h
  {
    DemoTarget();
    DemoStarts("old");
    hide Startable, Stored, Target;
    EachTarget(Demo("old"), DEMO, ["tv", "v.mkv"], 0);
  }

  /** A subtitle of another size: the old one is overwritten. */
  lemma OldSubtitleIsLost()
    ensures var h := Stored(Demo("older"), DEMO, ["tv", "v.mkv"]);
      TAKEN in h && h[TAKEN] == "new"
  {
    DemoTarget();
    DemoStarts("older");
    hide Startable, Stored, Target;
    EachTarget(Demo("older"), DEMO, ["tv", "v.mkv"], 0);
  }
}
