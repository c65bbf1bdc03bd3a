/** One transcode, its fallback and its crashes (backend/app/transcode/runner.py). */
module Transcode {
  import opened Paths
  import opened Disks

  datatype Profile = Off | HevcQsv | HevcVaapi | X265Software

  /** The profiles that need the GPU; only these fall back. */
  predicate Hardware(p: Profile) {
    p == HevcQsv || p == HevcVaapi
  }

  const TEMP_STEM := "transcoded.tmp"

  /** The paths of one job's transcode. */
  datatype Place = Place(jobDir: Path, source: Path, container: string) {
    function Output(): Path { jobDir + [TEMP_STEM + "." + container] }
    function Marker(): Path { jobDir + ["transcode.done"] }
    /** What `glob("transcoded.tmp.*")` finds. */
    predicate IsTemp(p: Path) { p != [] && Parent(p) == jobDir && TEMP_STEM + "." <= Name(p) }
  }

  /** The downloaded file is not one of the step's own files. */
  predicate Separate(place: Place) {
    !place.IsTemp(place.source) && place.source != place.Marker()
  }

  /** How one ffmpeg process goes: what it writes on the way, and how it ends. */
  datatype Exit = Succeeds | Fails | IsCancelled
  datatype FfmpegRun = FfmpegRun(writes: seq<Bytes>, exit: Exit)

  /** The complete encode of some bytes with a profile. */
  type Encoder = (Bytes, Profile) -> Bytes

  /** An encode in one write. */
  predicate Quick(run: FfmpegRun) {
    run.writes == [] && run.exit == Succeeds
  }

  predicate NoTemp(place: Place, f: Files) {
    forall q :: q in f ==> !place.IsTemp(q)
  }

  /** The life after one more step. */
  function Tick(life: Life): Life {
    if life.DiesAfter? && life.steps > 0 then DiesAfter(life.steps - 1) else life
  }

  /** All files but the step's own are as they were. */
  ghost predicate OthersKept(place: Place, f: Files, g: Files) {
    forall q :: !place.IsTemp(q) && q != place.source && q != place.Marker() ==> Same(f, g, q)
  }

  /** The files but the temporary ones are as they were. */
  ghost predicate OnlyTemp(place: Place, f: Files, g: Files) {
    forall q :: !place.IsTemp(q) ==> Same(f, g, q)
  }

  lemma PlaceFacts(place: Place)
    ensures place.IsTemp(place.Output()) && !place.IsTemp(place.Marker())
  {
    assert Name(place.Output()) == TEMP_STEM + "." + place.container;
    assert (TEMP_STEM + ".")[9] == 'd' && Name(place.Marker())[9] == '.';
  }

  /** The temporary files are those in the job's folder named `transcoded.tmp.` and anything. */
  lemma TempIsSpelled(place: Place, p: Path)
    ensures place.IsTemp(p) <==> exists ext: string :: p == place.jobDir + ["transcoded.tmp." + ext]
  {
    var start := "transcoded.tmp.";
    StemWithDot();
    hide TEMP_STEM;
    if place.IsTemp(p) {
      assert Name(p) == start + Name(p)[|start|..];
      assert p == place.jobDir + [start + Name(p)[|start|..]];
    }
    if ext: string :| p == place.jobDir + [start + ext] {
      ChildOf(place.jobDir, start + ext);
    }
  }

  lemma ChildOf(folder: Path, name: string)
    ensures Parent(folder + [name]) == folder && Name(folder + [name]) == name
  {
  }

  /** The output is one of them; the marker is `transcode.done`. */
  lemma OutputIsSpelled(place: Place)
    ensures place.Output() == place.jobDir + ["transcoded.tmp." + place.container] && place.IsTemp(place.Output())
    ensures place.Marker() == place.jobDir + ["transcode.done"]
  {
    StemWithDot();
    PlaceFacts(place);
  }

  lemma StemWithDot()
    ensures TEMP_STEM + "." == "transcoded.tmp."
  {
  }

  lemma OnlyTempSelf(place: Place, f: Files)
    ensures OnlyTemp(place, f, f)
  {
  }

  lemma OnlyTempWithout(place: Place, f: Files, g: Files, q: Path)
    requires OnlyTemp(place, f, g) && place.IsTemp(q)
    ensures OnlyTemp(place, f, g - {q})
  {
  }

  /** `clear_temp_files`. */
  method ClearTempFiles(disk: Disk, place: Place) returns (alive: bool)
    requires disk.Valid()
    modifies disk
    ensures disk.Valid() && (disk.life.Forever? <==> old(disk.life).Forever?)
    ensures old(disk.trace) <= disk.trace && (!alive ==> !disk.life.Forever?)
    ensures TempTrail(place, old(disk.files), disk.trace, |old(disk.trace)|)
    ensures OnlyTemp(place, old(disk.files), disk.files)
    ensures alive ==> NoTemp(place, disk.files)
    ensures NoTemp(place, old(disk.files)) ==> alive && disk.files == old(disk.files) && disk.life == old(disk.life)
  {
    hide OnlyTemp, Same, TempTrail, Place.IsTemp;
    ghost var f, start := disk.files, |disk.trace|;
    OnlyTempSelf(place, f);
    NoTrail(place, f, disk.trace);
    var rest := set q | q in disk.files && place.IsTemp(q);
    ghost var clean := rest == {};
    assert NoTemp(place, disk.files) ==> clean;
    while rest != {}
      invariant disk.Valid() && (disk.life.Forever? <==> old(disk.life).Forever?) && old(disk.trace) <= disk.trace
      invariant forall q :: q in rest <==> q in disk.files && place.IsTemp(q)
      invariant TempTrail(place, f, disk.trace, start) && OnlyTemp(place, f, disk.files)
      invariant clean ==> rest == {} && disk.files == f && disk.life == old(disk.life)
      decreases |rest|
    {
      var q :| q in rest;
      ghost var before := disk.trace;
      OnlyTempWithout(place, f, disk.files, q);
      alive := disk.Step(Unlink(q));
      if !alive { return; }
      TrailGrows(place, f, before, start, disk.files);
      rest := rest - {q};
    }
    return true;
  }

  /** Since `start` only temporary files have changed. */
  ghost predicate TempTrail(place: Place, f: Files, trace: seq<Files>, start: nat) {
    forall i :: start <= i < |trace| ==> OnlyTemp(place, f, trace[i])
  }

  lemma NoTrail(place: Place, f: Files, trace: seq<Files>)
    ensures TempTrail(place, f, trace, |trace|)
  {
  }

  lemma TrailGrows(place: Place, f: Files, trace: seq<Files>, start: nat, g: Files)
    requires TempTrail(place, f, trace, start) && OnlyTemp(place, f, g)
    ensures TempTrail(place, f, trace + [g], start)
  {
    hide OnlyTemp;
  }

  lemma SameWithout(f: Files, g: Files, p: Path, bytes: Bytes)
    requires f - {p} == g - {p}
    ensures f[p := bytes] == g[p := bytes]
  {
    forall q | q != p ensures Same(f, g, q) {
      assert (q in f - {p} <==> q in f) && (q in g - {p} <==> q in g);
      if q in f - {p} { assert (f - {p})[q] == f[q] && (g - {p})[q] == g[q]; }
    }
    var a, b := f[p := bytes], g[p := bytes];
    forall q ensures Same(a, b, q) {
      assert q != p ==> Same(f, g, q);
    }
    SameEverywhere(a, b);
  }

  datatype EncodeOutcome = Encoded | EncodeFailed | EncodeCancelled | EncodeCrashed

  /** `encode`: one ffmpeg process writing the output file, bit by bit. */
  method Encode(disk: Disk, place: Place, profile: Profile, run: FfmpegRun, encoder: Encoder) returns (r: EncodeOutcome)
    requires disk.Valid() && Separate(place) && place.source in disk.files
    modifies disk
    ensures disk.Valid() && (disk.life.Forever? <==> old(disk.life).Forever?)
    ensures old(disk.trace) <= disk.trace && (r.EncodeCrashed? ==> !disk.life.Forever?)
    ensures TempTrail(place, old(disk.files), disk.trace, |old(disk.trace)|)
    ensures disk.files - {place.Output()} == old(disk.files) - {place.Output()}
    ensures r.Encoded? ==>
      disk.files == old(disk.files)[place.Output() := encoder(old(disk.files)[place.source], profile)]
    ensures !r.EncodeCrashed? ==> (r.Encoded? <==> run.exit == Succeeds) && (r.EncodeFailed? <==> run.exit == Fails)
    ensures Quick(run) ==> (r.Encoded? <==> old(disk.life) != DiesAfter(0)) && disk.life == Tick(old(disk.life))
  {
    hide OnlyTemp, Same, TempTrail, Place.IsTemp;
    ghost var f, start := disk.files, |disk.trace|;
    OnlyTempSelf(place, f);
    NoTrail(place, f, disk.trace);
    var output := place.Output();
    var i := 0;
    while i < |run.writes|
      invariant i <= |run.writes| && disk.Valid() && (disk.life.Forever? <==> old(disk.life).Forever?)
      invariant old(disk.trace) <= disk.trace
      invariant disk.files - {output} == f - {output}
      invariant OnlyTemp(place, f, disk.files) && TempTrail(place, f, disk.trace, start)
      invariant i == 0 ==> disk.life == old(disk.life)
    {
      var alive := WriteOutput(disk, place, run.writes[i], f, start);
      if !alive { return EncodeCrashed; }
      i := i + 1;
    }
    match run.exit
    case IsCancelled => return EncodeCancelled;
    case Fails => return EncodeFailed;
    case Succeeds =>
      SourceStays(place, f, disk.files);
      SameWithout(f, disk.files, output, encoder(f[place.source], profile));
      var alive := WriteOutput(disk, place, encoder(disk.files[place.source], profile), f, start);
      if !alive { return EncodeCrashed; }
      return Encoded;
  }

  /** ffmpeg writes its output file. */
  method WriteOutput(disk: Disk, place: Place, bytes: Bytes, ghost f: Files, ghost start: nat) returns (alive: bool)
    requires disk.Valid() && OnlyTemp(place, f, disk.files) && TempTrail(place, f, disk.trace, start)
    modifies disk
    ensures disk.Valid() && (disk.life.Forever? <==> old(disk.life).Forever?) && old(disk.trace) <= disk.trace
    ensures OnlyTemp(place, f, disk.files) && TempTrail(place, f, disk.trace, start)
    ensures disk.files - {place.Output()} == old(disk.files) - {place.Output()}
    ensures alive ==> disk.files == old(disk.files)[place.Output() := bytes]
    ensures alive <==> old(disk.life) != DiesAfter(0)
    ensures disk.life == Tick(old(disk.life))
  {
    hide OnlyTemp, Same, TempTrail, Place.IsTemp, Place.Output;
    ghost var before := disk.trace;
    OutputIsTemp(place, f, disk.files, bytes);
    alive := disk.Step(Write(place.Output(), bytes));
    assert disk.files - {place.Output()} == old(disk.files) - {place.Output()};
    if alive { TrailGrows(place, f, before, start, disk.files); }
  }

  lemma OutputIsTemp(place: Place, f: Files, g: Files, bytes: Bytes)
    requires OnlyTemp(place, f, g)
    ensures OnlyTemp(place, f, g[place.Output() := bytes])
  {
    PlaceFacts(place);
    hide Place.IsTemp, Place.Output;
    forall q | !place.IsTemp(q) ensures Same(f, g[place.Output() := bytes], q) {
      assert Same(f, g, q) && q != place.Output();
    }
  }

  lemma SourceStays(place: Place, f: Files, g: Files)
    requires g - {place.Output()} == f - {place.Output()} && Separate(place) && place.source in f
    ensures place.source in g && g[place.source] == f[place.source]
  {
    PlaceFacts(place);
    hide Place.IsTemp, Place.Output;
    assert place.source in f - {place.Output()};
    assert (g - {place.Output()})[place.source] == g[place.source];
  }

  datatype Outcome = Done(fellBack: bool) | Failed | Cancelled | Crashed

  /** At every moment the source holds what it held, or the one complete encode made last;
      and the marker is there only with the encode. */
  ghost predicate WholeSource(place: Place, f: Files, g: Files, encodes: seq<Profile>, encoder: Encoder) {
    && place.source in f && place.source in g
    && OthersKept(place, f, g)
    && (|| (g[place.source] == f[place.source] && Same(f, g, place.Marker()))
        || (encodes != [] && g[place.source] == encoder(f[place.source], encodes[|encodes| - 1])))
  }

  /** The replacement as the end of a step that started at `f`. */
  method PutInPlace(disk: Disk, place: Place, ghost f: Files, ghost encodes: seq<Profile>, ghost encoder: Encoder)
    returns (alive: bool, replaced: bool)
    requires disk.Valid() && Separate(place) && place.source in f && OnlyTemp(place, f, disk.files)
    requires place.source in disk.files && place.Output() in disk.files
    requires encodes != [] && disk.files[place.Output()] == encoder(f[place.source], encodes[|encodes| - 1])
    requires forall q :: q in disk.files && place.IsTemp(q) ==> q == place.Output()
    modifies disk
    ensures disk.Valid() && (disk.life.Forever? <==> old(disk.life).Forever?)
    ensures old(disk.trace) <= disk.trace && (!alive ==> !disk.life.Forever?)
    ensures forall i :: |old(disk.trace)| <= i < |disk.trace| ==> WholeSource(place, f, disk.trace[i], encodes, encoder)
    ensures if replaced then
        && OthersKept(place, f, disk.files) && place.source in disk.files
        && disk.files[place.source] == encoder(f[place.source], encodes[|encodes| - 1])
      else disk.files == old(disk.files) && disk.trace == old(disk.trace)
    ensures alive ==>
      replaced && place.Marker() in disk.files && disk.files[place.Marker()] == "done\n" && NoTemp(place, disk.files)
    ensures old(disk.life) == DiesAfter(1) ==>
      !alive && replaced && (place.Marker() in disk.files <==> place.Marker() in old(disk.files))
  {
    hide OnlyTemp, WholeSource, Replaced, OthersKept, Separate;
    ghost var g, start := disk.files, |disk.trace|;
    alive, replaced := ReplaceSource(disk, place);
    forall i | start <= i < |disk.trace| ensures WholeSource(place, f, disk.trace[i], encodes, encoder) {
      ReplacedIsWhole(place, f, g, disk.trace[i], encodes, encoder);
    }
    if replaced { ReplacedIsWhole(place, f, g, disk.files, encodes, encoder); }
    if alive { PlaceFacts(place); SourceIsNotTemp(place); }
  }

  lemma SourceIsNotTemp(place: Place)
    requires Separate(place)
    ensures !place.IsTemp(place.source)
  {
  }

  /** `transcode`; `encodes` lists the profiles ffmpeg was started with, and `replaced` says
      whether the run got as far as the rename. */
  method TranscodeSource(disk: Disk, place: Place, profile: Profile, first: FfmpegRun, second: FfmpegRun, encoder: Encoder)
    returns (r: Outcome, encodes: seq<Profile>, replaced: bool)
    requires disk.Valid() && Separate(place) && place.source in disk.files
    modifies disk
    ensures disk.Valid() && (disk.life.Forever? <==> old(disk.life).Forever?)
    ensures old(disk.trace) <= disk.trace && (r.Crashed? ==> !disk.life.Forever?)
    ensures forall i :: |old(disk.trace)| <= i < |disk.trace| ==>
      WholeSource(place, old(disk.files), disk.trace[i], encodes, encoder)
    ensures |encodes| <= 2 && (|encodes| >= 1 ==> encodes[0] == profile)
    ensures |encodes| == 2 ==> profile in {HevcQsv, HevcVaapi} && first.exit == Fails && encodes[1] == X265Software
    ensures !r.Crashed? ==>
      var last := if first.exit == Fails && profile in {HevcQsv, HevcVaapi} then second.exit else first.exit;
      && (r.Done? <==> last == Succeeds) && (r.Failed? <==> last == Fails)
      && |encodes| == if first.exit == Fails && profile in {HevcQsv, HevcVaapi} then 2 else 1
    ensures if replaced then
        && encodes != [] && OthersKept(place, old(disk.files), disk.files) && place.source in disk.files
        && disk.files[place.source] == encoder(old(disk.files)[place.source], encodes[|encodes| - 1])
      else
        && OnlyTemp(place, old(disk.files), disk.files)
        && TempTrail(place, old(disk.files), disk.trace, |old(disk.trace)|)
    ensures r.Done? ==>
      && replaced && r.fellBack == (|encodes| == 2)
      && place.Marker() in disk.files && disk.files[place.Marker()] == "done\n" && NoTemp(place, disk.files)
    ensures r.Failed? || r.Cancelled? ==> !replaced
    ensures NoTemp(place, old(disk.files)) && Quick(first) && old(disk.life) == DiesAfter(2) ==>
      r.Crashed? && replaced && |encodes| == 1 && (place.Marker() in disk.files <==> place.Marker() in old(disk.files))
  {
    PlaceFacts(place);
    hide OnlyTemp, WholeSource, Replaced, OthersKept;
    ghost var f := disk.files;
    var outcome;
    outcome, encodes := EncodeWithFallback(disk, place, profile, first, second, encoder);
    forall i | |old(disk.trace)| <= i < |disk.trace| ensures WholeSource(place, f, disk.trace[i], encodes, encoder) {
      TempIsWhole(place, f, disk.trace[i], encodes, encoder);
    }
    TempIsWhole(place, f, disk.files, encodes, encoder);
    replaced := false;
    match outcome
    case EncodeCrashed => r := Crashed;
    case EncodeFailed => r := Failed;
    case EncodeCancelled => r := Cancelled;
    case Encoded =>
      var alive;
      alive, replaced := PutInPlace(disk, place, f, encodes, encoder);
      r := if alive then Done(|encodes| == 2) else Crashed;
  }

  lemma TempIsWhole(place: Place, f: Files, g: Files, encodes: seq<Profile>, encoder: Encoder)
    requires Separate(place) && place.source in f && OnlyTemp(place, f, g)
    ensures WholeSource(place, f, g, encodes, encoder) && place.source in g && g[place.source] == f[place.source]
    ensures place.Marker() in g <==> place.Marker() in f
  {
    PlaceFacts(place);
    assert Same(f, g, place.source) && Same(f, g, place.Marker());
  }

  lemma ReplacedIsWhole(place: Place, f: Files, g: Files, h: Files, encodes: seq<Profile>, encoder: Encoder)
    requires Separate(place) && place.source in f && OnlyTemp(place, f, g) && Replaced(place, g, h)
    requires encodes != [] && g[place.Output()] == encoder(f[place.source], encodes[|encodes| - 1])
    ensures WholeSource(place, f, h, encodes, encoder) && OthersKept(place, f, h) && place.source in h
    ensures h[place.source] == encoder(f[place.source], encodes[|encodes| - 1])
  {
    PlaceFacts(place);
    forall q | !place.IsTemp(q) && q != place.source && q != place.Marker() ensures Same(f, h, q) {
      assert Same(f, g, q) && Same(g, h, q);
    }
  }

  lemma TempThenTemp(place: Place, f: Files, g: Files, h: Files)
    requires OnlyTemp(place, f, g) && OnlyTemp(place, g, h)
    ensures OnlyTemp(place, f, h)
  {
    forall q | !place.IsTemp(q) ensures Same(f, h, q) {
      assert Same(f, g, q) && Same(g, h, q);
    }
  }

  lemma TempKeepsSource(place: Place, f: Files, g: Files)
    requires OnlyTemp(place, f, g) && Separate(place) && place.source in f
    ensures place.source in g && g[place.source] == f[place.source]
  {
    PlaceFacts(place);
    assert Same(f, g, place.source);
  }

  /** All of `transcode` up to the replacement: only temporary files change. */
  method EncodeWithFallback(disk: Disk, place: Place, profile: Profile, first: FfmpegRun, second: FfmpegRun, encoder: Encoder)
    returns (outcome: EncodeOutcome, encodes: seq<Profile>)
    requires disk.Valid() && Separate(place) && place.source in disk.files
    modifies disk
    ensures disk.Valid() && (disk.life.Forever? <==> old(disk.life).Forever?)
    ensures old(disk.trace) <= disk.trace && (outcome.EncodeCrashed? ==> !disk.life.Forever?)
    ensures TempTrail(place, old(disk.files), disk.trace, |old(disk.trace)|)
    ensures OnlyTemp(place, old(disk.files), disk.files)
    ensures |encodes| <= 2 && (|encodes| >= 1 ==> encodes[0] == profile)
    ensures |encodes| == 2 ==> profile in {HevcQsv, HevcVaapi} && first.exit == Fails && encodes[1] == X265Software
    ensures !outcome.EncodeCrashed? ==>
      var last := if first.exit == Fails && profile in {HevcQsv, HevcVaapi} then second.exit else first.exit;
      && (outcome.Encoded? <==> last == Succeeds) && (outcome.EncodeFailed? <==> last == Fails)
      && |encodes| == if first.exit == Fails && profile in {HevcQsv, HevcVaapi} then 2 else 1
    ensures outcome.Encoded? ==>
      && place.Output() in disk.files
      && disk.files[place.Output()] == encoder(old(disk.files)[place.source], encodes[|encodes| - 1])
      && forall q :: q in disk.files && place.IsTemp(q) ==> q == place.Output()
    ensures NoTemp(place, old(disk.files)) && Quick(first) ==>
      (outcome.Encoded? <==> old(disk.life) != DiesAfter(0)) && disk.life == Tick(old(disk.life)) && |encodes| == 1
  {
    hide OnlyTemp, Same, Separate, TempTrail, Place.IsTemp;
    ghost var f, t := disk.files, |disk.trace|;
    encodes := [];
    var alive := ClearTempFiles(disk, place);
    if !alive { return EncodeCrashed, encodes; }
    TempKeepsSource(place, f, disk.files);
    ghost var g, before := disk.files, disk.trace;
    outcome := Encode(disk, place, profile, first, encoder);
    encodes := [profile];
    TempTogether(place, f, before, t, g, disk.trace);
    EncodeIsTemp(place, f, g, disk.files);
    if outcome.EncodeFailed? && Hardware(profile) {
      ghost var h := disk.files;
      before := disk.trace;
      var started;
      outcome, started := FallBack(disk, place, second, encoder);
      if started { encodes := [profile, X265Software]; }
      TempTogether(place, f, before, t, h, disk.trace);
      EncodeIsTemp(place, f, h, disk.files);
    }
  }

  /** The second encode, in software, after what the first one left is removed. */
  method FallBack(disk: Disk, place: Place, second: FfmpegRun, encoder: Encoder)
    returns (outcome: EncodeOutcome, started: bool)
    requires disk.Valid() && Separate(place) && place.source in disk.files
    modifies disk
    ensures disk.Valid() && (disk.life.Forever? <==> old(disk.life).Forever?)
    ensures old(disk.trace) <= disk.trace && (outcome.EncodeCrashed? ==> !disk.life.Forever?)
    ensures TempTrail(place, old(disk.files), disk.trace, |old(disk.trace)|)
    ensures disk.files - {place.Output()} == old(disk.files) - {place.Output()}
    ensures !started ==> outcome.EncodeCrashed?
    ensures outcome.Encoded? ==>
      && place.Output() in disk.files
      && disk.files[place.Output()] == encoder(old(disk.files)[place.source], X265Software)
    ensures !outcome.EncodeCrashed? ==>
      (outcome.Encoded? <==> second.exit == Succeeds) && (outcome.EncodeFailed? <==> second.exit == Fails)
  {
    hide OnlyTemp, TempTrail, Place.IsTemp;
    PlaceFacts(place);
    ghost var f, t := disk.files, |disk.trace|;
    NoTrail(place, f, disk.trace);
    OnlyTempSelf(place, f);
    OnlyTempWithout(place, f, f, place.Output());
    var alive := disk.Step(Unlink(place.Output()));
    if !alive { return EncodeCrashed, false; }
    ghost var g, before := disk.files, disk.trace;
    TrailGrows(place, f, before[..t], t, g);
    SourceStays(place, f, g);
    outcome := Encode(disk, place, X265Software, second, encoder);
    TempTogether(place, f, before, t, g, disk.trace);
    return outcome, true;
  }

  /** One part of a step after another. */
  lemma TempTogether(place: Place, f: Files, before: seq<Files>, start: nat, g: Files, trace: seq<Files>)
    requires TempTrail(place, f, before, start) && OnlyTemp(place, f, g)
    requires before <= trace && TempTrail(place, g, trace, |before|)
    ensures TempTrail(place, f, trace, start)
  {
    hide OnlyTemp;
    forall i | start <= i < |trace| ensures OnlyTemp(place, f, trace[i]) {
      if i >= |before| { TempThenTemp(place, f, g, trace[i]); }
    }
  }

  lemma EncodeIsTemp(place: Place, f: Files, g: Files, h: Files)
    requires OnlyTemp(place, f, g) && h - {place.Output()} == g - {place.Output()}
    requires Separate(place) && place.source in f
    requires forall q :: q in g && place.IsTemp(q) ==> q == place.Output()
    ensures OnlyTemp(place, f, h) && place.source in h && h[place.source] == f[place.source]
    ensures forall q :: q in h && place.IsTemp(q) ==> q == place.Output()
  {
    PlaceFacts(place);
    forall q | q != place.Output() ensures Same(g, h, q) {
      assert (q in g - {place.Output()} <==> q in g) && (q in h - {place.Output()} <==> q in h);
      if q in g { assert (g - {place.Output()})[q] == g[q] && (h - {place.Output()})[q] == h[q]; }
    }
    forall q | !place.IsTemp(q) ensures Same(f, h, q) {
      assert Same(f, g, q) && Same(g, h, q);
    }
    assert Same(f, h, place.source);
    forall q | q in h && place.IsTemp(q) ensures q == place.Output() {
      assert q != place.Output() ==> Same(g, h, q);
    }
  }

  /** `_replace_source`: one rename, then the marker. */
  method ReplaceSource(disk: Disk, place: Place) returns (alive: bool, replaced: bool)
    requires disk.Valid() && Separate(place) && place.source in disk.files && place.Output() in disk.files
    modifies disk
    ensures disk.Valid() && (disk.life.Forever? <==> old(disk.life).Forever?)
    ensures old(disk.trace) <= disk.trace && (!alive ==> !disk.life.Forever?)
    ensures forall i :: |old(disk.trace)| <= i < |disk.trace| ==> Replaced(place, old(disk.files), disk.trace[i])
    ensures if replaced then Replaced(place, old(disk.files), disk.files)
      else disk.files == old(disk.files) && disk.trace == old(disk.trace)
    ensures alive ==> replaced
    ensures alive ==>
      var f, output := old(disk.files), place.Output();
      disk.files == (f - {output})[place.source := f[output]][place.Marker() := "done\n"]
    ensures old(disk.life) == DiesAfter(1) ==>
      !alive && replaced && (place.Marker() in disk.files <==> place.Marker() in old(disk.files))
  {
    PlaceFacts(place);
    hide Replaced;
    var output := place.Output();
    ReplaceStates(place, disk.files, "");
    ReplaceStates(place, disk.files, "done\n");
    alive := disk.Step(Rename(output, place.source));
    replaced := alive;
    if !alive { return; }
    ghost var g := disk.files;
    alive := disk.Step(Write(place.Marker(), ""));
    if !alive { return; }
    alive := disk.Step(Append(place.Marker(), "done\n"));
    assert "" + "done\n" == "done\n";
    assert alive ==> disk.files == g[place.Marker() := "done\n"];
  }

  lemma ReplaceStates(place: Place, f: Files, text: Bytes)
    requires Separate(place) && place.source in f && place.Output() in f
    ensures var g := (f - {place.Output()})[place.source := f[place.Output()]];
      Replaced(place, f, g) && Replaced(place, f, g[place.Marker() := text])
  {
    PlaceFacts(place);
  }

  ghost predicate Replaced(place: Place, f: Files, g: Files) {
    && place.Output() in f && place.source in g && g[place.source] == f[place.Output()]
    && forall q :: q != place.source && q != place.Output() && q != place.Marker() ==> Same(f, g, q)
  }
}
