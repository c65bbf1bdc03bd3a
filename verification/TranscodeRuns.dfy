/** The transcode step run again and again, as the pipeline does until the marker says it is
    done (backend/app/transcode/runner.py, lines 168-227; backend/app/jobs/pipeline.py, lines
    160-167). */
module TranscodeRuns {
  import opened Paths
  import opened Disks
  import opened Transcode

  /** The bytes after one complete encode for each profile of `chain`, in order. */
  function Chain(bytes: Bytes, chain: seq<Profile>, encoder: Encoder): Bytes {
    if chain == [] then bytes
    else encoder(Chain(bytes, chain[..|chain| - 1], encoder), chain[|chain| - 1])
  }

  /** One process: how long it lives, and how its two ffmpeg runs go. */
  datatype Attempt = Attempt(life: Life, first: FfmpegRun, second: FfmpegRun)

  /** What came of it: nothing to do, or a run that renamed its last encode over the source or
      did not, and left a marker or none. */
  datatype Report = Skipped | Ran(profile: Profile, replaced: bool, marked: bool)

  /** The profiles of the encodes that reached the rename, in order. */
  function Replacements(reports: seq<Report>): seq<Profile> {
    if reports == [] then []
    else
      var last := reports[|reports| - 1];
      Replacements(reports[..|reports| - 1]) + if last.Ran? && last.replaced then [last.profile] else []
  }

  predicate Reaches(r: Report) {
    r.Ran? && r.replaced
  }

  predicate Marks(r: Report) {
    r.Ran? && r.marked
  }

  /** A marker comes with a replacement, and from then on there is nothing to do. */
  predicate Ordered(reports: seq<Report>) {
    && (forall i :: 0 <= i < |reports| && Marks(reports[i]) ==> Reaches(reports[i]))
    && (forall i, j :: 0 <= i < j < |reports| && Marks(reports[i]) ==> reports[j].Skipped?)
  }

  /** The source is the original after the first `k` encodes of `chain`; a marker says that
      there was at least one. */
  ghost predicate ChainedTo(place: Place, f: Files, g: Files, chain: seq<Profile>, k: nat, encoder: Encoder)
    requires place.source in f
  {
    && place.source in g && OthersKept(place, f, g) && k <= |chain|
    && g[place.source] == Chain(f[place.source], chain[..k], encoder)
    && (place.Marker() in g ==> k > 0)
  }

  ghost predicate Chained(place: Place, f: Files, g: Files, chain: seq<Profile>, encoder: Encoder)
    requires place.source in f
  {
    exists k: nat :: ChainedTo(place, f, g, chain, k, encoder)
  }

  // ------------------------------------------------------------------ one run

  /** The pipeline's done-check and, unless the marker is there, one process. */
  method RunOnce(disk: Disk, place: Place, profile: Profile, attempt: Attempt, encoder: Encoder) returns (report: Report)
    requires disk.Valid() && Separate(place) && place.source in disk.files
    modifies disk
    ensures disk.Valid() && old(disk.trace) <= disk.trace
    ensures report.Skipped? <==> place.Marker() in old(disk.files)
    ensures report.Skipped? ==> disk.files == old(disk.files) && disk.trace == old(disk.trace)
    ensures place.Marker() in disk.files <==> report.Skipped? || Marks(report)
    ensures Marks(report) ==> Reaches(report)
    ensures Reaches(report) ==>
      && OthersKept(place, old(disk.files), disk.files) && place.source in disk.files
      && disk.files[place.source] == encoder(old(disk.files)[place.source], report.profile)
      && forall i :: |old(disk.trace)| <= i < |disk.trace| ==>
           WholeSource(place, old(disk.files), disk.trace[i], [report.profile], encoder)
    ensures !Reaches(report) ==>
      && OnlyTemp(place, old(disk.files), disk.files)
      && forall i :: |old(disk.trace)| <= i < |disk.trace| ==> OnlyTemp(place, old(disk.files), disk.trace[i])
    ensures place.Marker() !in old(disk.files) && attempt.life.Forever? && attempt.first.exit == Succeeds ==>
      report == Ran(profile, true, true)
    ensures (place.Marker() !in old(disk.files) && NoTemp(place, old(disk.files)) && attempt.life == DiesAfter(2)
             && Quick(attempt.first)) ==> report == Ran(profile, true, false)
  {
    hide OnlyTemp, WholeSource, OthersKept, Separate, NoTemp;
    OnlyTempSelf(place, disk.files);
    if place.Marker() in disk.files {
      return Skipped;
    }
    disk.Start(attempt.life);
    ghost var f, start := disk.files, |disk.trace|;
    var r, encodes, replaced := TranscodeSource(disk, place, profile, attempt.first, attempt.second, encoder);
    report := Ran(if encodes == [] then profile else encodes[|encodes| - 1], replaced, place.Marker() in disk.files);
    if replaced {
      forall i | start <= i < |disk.trace| ensures WholeSource(place, f, disk.trace[i], [report.profile], encoder) {
        LastEncode(place, f, disk.trace[i], encodes, encoder);
      }
    } else {
      TempKeepsMarker(place, f, disk.files);
    }
  }

  lemma LastEncode(place: Place, f: Files, g: Files, encodes: seq<Profile>, encoder: Encoder)
    requires encodes != [] && WholeSource(place, f, g, encodes, encoder)
    ensures WholeSource(place, f, g, [encodes[|encodes| - 1]], encoder)
  {
  }

  lemma TempKeepsMarker(place: Place, f: Files, g: Files)
    requires OnlyTemp(place, f, g)
    ensures place.Marker() in g <==> place.Marker() in f
  {
    PlaceFacts(place);
    assert Same(f, g, place.Marker());
  }

  // ------------------------------------------------------------------ all runs

  /** Runs one after the other, each with its own life. The source is always the original after
      one whole encode for each run that reached the rename, in order, and the marker is there
      exactly when one of them left it. */
  method RunAll(disk: Disk, place: Place, profile: Profile, attempts: seq<Attempt>, encoder: Encoder)
    returns (reports: seq<Report>)
    requires disk.Valid() && Separate(place) && place.source in disk.files && place.Marker() !in disk.files
    modifies disk
    ensures disk.Valid() && old(disk.trace) <= disk.trace && |reports| == |attempts|
    ensures Ordered(reports)
    ensures ChainedTo(place, old(disk.files), disk.files, Replacements(reports), |Replacements(reports)|, encoder)
    ensures place.Marker() in disk.files <==> exists i :: 0 <= i < |reports| && Marks(reports[i])
    ensures forall k :: |old(disk.trace)| <= k < |disk.trace| ==>
      Chained(place, old(disk.files), disk.trace[k], Replacements(reports), encoder)
  {
    hide WholeSource, OnlyTemp, OthersKept, ChainedTo, Chained, Replacements, Separate;
    ghost var f, start := disk.files, |disk.trace|;
    reports := [];
    ChainStart(place, f, encoder);
    var i := 0;
    while i < |attempts|
      invariant i == |reports| <= |attempts| && disk.Valid() && old(disk.trace) <= disk.trace
      invariant Ordered(reports) && place.source in disk.files
      invariant ChainedTo(place, f, disk.files, Replacements(reports), |Replacements(reports)|, encoder)
      invariant place.Marker() in disk.files <==> exists k :: 0 <= k < |reports| && Marks(reports[k])
      invariant forall k :: start <= k < |disk.trace| ==> Chained(place, f, disk.trace[k], Replacements(reports), encoder)
    {
      ghost var g, middle, before := disk.files, |disk.trace|, Replacements(reports);
      var report := RunOnce(disk, place, profile, attempts[i], encoder);
      ReplacementsNext(reports, report);
      ghost var longer := Replacements(reports + [report]);
      forall k | start <= k < |disk.trace| ensures Chained(place, f, disk.trace[k], longer, encoder) {
        if k < middle {
          ChainLonger(place, f, disk.trace[k], before, longer, encoder);
        } else {
          ChainStep(place, f, g, disk.trace[k], before, report, encoder);
        }
      }
      ChainEnd(place, f, g, disk.files, before, report, encoder);
      OrderedNext(reports, report, place.Marker() in g);
      reports := reports + [report];
      i := i + 1;
    }
  }

  lemma ReplacementsNext(reports: seq<Report>, report: Report)
    ensures Replacements(reports + [report]) == Replacements(reports) + if Reaches(report) then [report.profile] else []
  {
    assert (reports + [report])[..|reports|] == reports;
  }

  lemma OrderedNext(reports: seq<Report>, report: Report, marked: bool)
    requires Ordered(reports) && marked == exists k :: 0 <= k < |reports| && Marks(reports[k])
    requires (report.Skipped? <==> marked) && (Marks(report) ==> Reaches(report))
    ensures Ordered(reports + [report])
    ensures marked || Marks(report) <==> exists k :: 0 <= k < |reports + [report]| && Marks((reports + [report])[k])
  {
    hide Marks, Reaches;
    var all := reports + [report];
    assert all[|reports|] == report;
    forall k | 0 <= k < |reports| ensures all[k] == reports[k] {
    }
  }

  lemma ChainStart(place: Place, f: Files, encoder: Encoder)
    requires place.source in f && place.Marker() !in f
    ensures ChainedTo(place, f, f, Replacements([]), |Replacements([])|, encoder)
  {
  }

  lemma ChainLonger(place: Place, f: Files, g: Files, chain: seq<Profile>, longer: seq<Profile>, encoder: Encoder)
    requires place.source in f && Chained(place, f, g, chain, encoder) && chain <= longer
    ensures Chained(place, f, g, longer, encoder)
  {
    hide OthersKept;
    var k: nat :| ChainedTo(place, f, g, chain, k, encoder);
    assert chain[..k] == longer[..k];
    assert ChainedTo(place, f, g, longer, k, encoder);
  }

  lemma ChainGrows(bytes: Bytes, chain: seq<Profile>, profile: Profile, encoder: Encoder)
    ensures Chain(bytes, chain + [profile], encoder) == encoder(Chain(bytes, chain, encoder), profile)
  {
    assert (chain + [profile])[..|chain|] == chain;
  }

  lemma KeptTwice(place: Place, f: Files, g: Files, h: Files)
    requires OthersKept(place, f, g) && OthersKept(place, g, h)
    ensures OthersKept(place, f, h)
  {
    forall q | !place.IsTemp(q) && q != place.source && q != place.Marker() ensures Same(f, h, q) {
      assert Same(f, g, q) && Same(g, h, q);
    }
  }

  lemma TempIsKept(place: Place, g: Files, h: Files)
    requires OnlyTemp(place, g, h)
    ensures OthersKept(place, g, h)
  {
  }

  /** A state inside a run: the source is as the run found it, or has had the run's encode. */
  lemma ChainStep(place: Place, f: Files, g: Files, h: Files, chain: seq<Profile>, report: Report, encoder: Encoder)
    requires place.source in f && Separate(place) && place.Marker() !in g
    requires ChainedTo(place, f, g, chain, |chain|, encoder)
    requires if Reaches(report) then WholeSource(place, g, h, [report.profile], encoder) else OnlyTemp(place, g, h)
    ensures Chained(place, f, h, chain + if Reaches(report) then [report.profile] else [], encoder)
  {
    var longer := chain + if Reaches(report) then [report.profile] else [];
    assert chain[..|chain|] == chain && longer[..|longer|] == longer && longer[..|chain|] == chain;
    if !Reaches(report) {
      TempIsKept(place, g, h);
      TempKeepsMarker(place, g, h);
      TempKeepsSource(place, g, h);
      hide OthersKept, OnlyTemp;
      KeptTwice(place, f, g, h);
      assert ChainedTo(place, f, h, longer, |chain|, encoder);
    } else {
      KeptTwice(place, f, g, h);
      hide OthersKept;
      ChainGrows(f[place.source], chain, report.profile, encoder);
      if h[place.source] == encoder(g[place.source], report.profile) {
        assert ChainedTo(place, f, h, longer, |longer|, encoder);
      } else {
        assert ChainedTo(place, f, h, longer, |chain|, encoder);
      }
    }
  }

  lemma ChainEnd(place: Place, f: Files, g: Files, h: Files, chain: seq<Profile>, report: Report, encoder: Encoder)
    requires place.source in f && Separate(place) && ChainedTo(place, f, g, chain, |chain|, encoder)
    requires place.Marker() in h <==> report.Skipped? || Marks(report)
    requires report.Skipped? ==> h == g
    requires Marks(report) ==> Reaches(report)
    requires if Reaches(report) then
        OthersKept(place, g, h) && place.source in h && h[place.source] == encoder(g[place.source], report.profile)
      else OnlyTemp(place, g, h)
    ensures var longer := chain + if Reaches(report) then [report.profile] else [];
      ChainedTo(place, f, h, longer, |longer|, encoder) && place.source in h
  {
    var longer := chain + if Reaches(report) then [report.profile] else [];
    assert chain[..|chain|] == chain && longer[..|longer|] == longer;
    if Reaches(report) {
      ChainGrows(f[place.source], chain, report.profile, encoder);
    } else {
      TempIsKept(place, g, h);
      TempKeepsSource(place, g, h);
    }
    hide OthersKept, OnlyTemp;
    KeptTwice(place, f, g, h);
  }

  // ------------------------------------------------------------------ when an encode is encoded

  lemma {:induction false} ReplacementsCount(reports: seq<Report>, i: nat, j: nat)
    requires i < j < |reports| && Reaches(reports[i]) && Reaches(reports[j])
    ensures |Replacements(reports)| >= 2
  {
    var front := reports[..|reports| - 1];
    if j == |reports| - 1 {
      SomeReplacement(front, i);
    } else {
      ReplacementsCount(front, i, j);
    }
  }

  lemma {:induction false} SomeReplacement(reports: seq<Report>, i: nat)
    requires i < |reports| && Reaches(reports[i])
    ensures |Replacements(reports)| >= 1
  {
    if i < |reports| - 1 {
      SomeReplacement(reports[..|reports| - 1], i);
    }
  }

  lemma {:induction false} TwoReplacements(reports: seq<Report>) returns (i: nat, j: nat)
    requires |Replacements(reports)| >= 2
    ensures i < j < |reports| && Reaches(reports[i]) && Reaches(reports[j])
  {
    var front := reports[..|reports| - 1];
    if |Replacements(front)| >= 2 {
      i, j := TwoReplacements(front);
    } else {
      i := OneReplacement(front);
      j := |reports| - 1;
    }
  }

  lemma {:induction false} OneReplacement(reports: seq<Report>) returns (i: nat)
    requires Replacements(reports) != []
    ensures i < |reports| && Reaches(reports[i])
  {
    var front := reports[..|reports| - 1];
    if Replacements(front) != [] {
      i := OneReplacement(front);
    } else {
      i := |reports| - 1;
    }
  }

  /** Run `i` was cut off between its rename and its marker, so that a later run that is not
      skipped finds an encode for a source. */
  predicate CutOff(r: Report) {
    Reaches(r) && !Marks(r)
  }

  /** The source is encoded more than once if and only if some run was cut off between the
      rename and the marker, and a later one reached the rename again. */
  lemma EncodedAgainIffCutOff(reports: seq<Report>)
    requires Ordered(reports)
    ensures |Replacements(reports)| > 1 <==>
      exists i, j :: 0 <= i < j < |reports| && CutOff(reports[i]) && Reaches(reports[j])
  {
    if |Replacements(reports)| > 1 {
      var i, j := TwoReplacements(reports);
      assert CutOff(reports[i]);
    }
    if i, j :| 0 <= i < j < |reports| && CutOff(reports[i]) && Reaches(reports[j]) {
      ReplacementsCount(reports, i, j);
    }
  }

  /** A real run of that kind: on any disk without leftovers, the first process dies between the
      two steps of the replacement, the second is left alone, and the encode is encoded. */
  method EncodesTheEncode(disk: Disk, place: Place, profile: Profile, encoder: Encoder)
    requires disk.Valid() && Separate(place) && place.source in disk.files && place.Marker() !in disk.files
    requires NoTemp(place, disk.files)
    modifies disk
    ensures place.source in disk.files && place.Marker() in disk.files
    ensures disk.files[place.source] == encoder(encoder(old(disk.files)[place.source], profile), profile)
  {
    hide NoTemp, Separate, WholeSource, OnlyTemp, OthersKept;
    var quick := FfmpegRun([], Succeeds);
    var first := RunOnce(disk, place, profile, Attempt(DiesAfter(2), quick, quick), encoder);
    assert first == Ran(profile, true, false);
    var second := RunOnce(disk, place, profile, Attempt(Forever, quick, quick), encoder);
    assert second == Ran(profile, true, true);
  }
}
