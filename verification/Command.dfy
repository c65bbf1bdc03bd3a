/** The yt-dlp arguments for one download (backend/app/ytdlp/command.py). */
module Command {
  import opened Wrappers
  import opened Text
  import opened Formats

  const FRAGMENTS_FLAG := "--concurrent-fragments"
  const ARIA2C_ARGS := "aria2c:-x 4 -s 4 -j 4 --file-allocation=none --retry-wait=1"

  datatype StreamType = Hls | Dash | Http
  datatype SubtitleMode = SubtitlesOff | Embed | Sidecar
  datatype SponsorMode = SponsorOff | Mark | Remove

  /** What `build_argv` is given; `host` is the host name in `url`, and `languages` and
      `categories` are already joined with commas. */
  datatype Download = Download(
    url: string, host: string, request: Request, embedChapters: bool, embedMetadata: bool,
    fragments: nat, retries: nat, stream: StreamType, aria2c: bool, cookies: Option<string>, node: bool,
    subtitles: SubtitleMode, languages: string, autoCaptions: bool,
    sponsor: SponsorMode, categories: string, rate: Option<string>, jobDir: string)

  function ContainerText(container: Container): string {
    if container == Mp4 then "mp4" else "mkv"
  }

  predicate IsYoutubeHost(host: string) {
    host == "youtube.com" || host == "youtu.be" || EndsWith(host, ".youtube.com")
  }

  /** YouTube's own hosts and everything below the first. */
  lemma YoutubeHosts(host: string)
    ensures IsYoutubeHost(host) <==>
      host in {"youtube.com", "youtu.be"} || exists sub: string :: host == sub + ".youtube.com"
  {
    var suffix := ".youtube.com";
    if EndsWith(host, suffix) { assert host == host[..|host| - |suffix|] + suffix; }
    if sub: string :| host == sub + suffix { assert host[|host| - |suffix|..] == suffix; }
  }

  function Add(args: seq<string>, condition: bool, more: seq<string>): seq<string> {
    if condition then args + more else args
  }

  /** `_subtitle_args`. */
  function SubtitleArgs(d: Download): seq<string> {
    if d.subtitles == SubtitlesOff then []
    else
      Add(["--write-subs", "--sub-langs", d.languages], d.autoCaptions, ["--write-auto-subs"])
      + if d.subtitles == Embed then ["--embed-subs"] else ["--convert-subs", "srt"]
  }

  /** `_sponsorblock_args`. */
  function SponsorArgs(d: Download): seq<string> {
    if d.sponsor == SponsorOff then []
    else [if d.sponsor == Mark then "--sponsorblock-mark" else "--sponsorblock-remove", d.categories]
  }

  /** Where the progress and the files go. */
  function OutputArgs(d: Download): seq<string> {
    ["--newline", "--progress", "--progress-template", "download:FA_PROGRESS %(progress)j",
     "--print-to-file", "after_move:%(filepath)s", d.jobDir + "/final_path",
     "-P", "home:" + d.jobDir, "-P", "temp:" + d.jobDir + "/tmp", "-o", "%(id)s.%(ext)s"]
  }

  /** The arguments before the number of fragments. */
  function Before(d: Download): seq<string> {
    var a := ["--format", BuildSelector(d.request), "--merge-output-format", ContainerText(d.request.container)];
    var a := Add(a, d.embedChapters, ["--embed-chapters"]);
    var a := Add(a, d.embedMetadata, ["--embed-metadata"]);
    a + ["--no-playlist"]
  }

  /** How to fetch. */
  function FetchArgs(d: Download): seq<string> {
    var a := ["--retries", Decimal(d.retries), "--fragment-retries", Decimal(d.retries)];
    var a := Add(a, d.stream != Http, ["--http-chunk-size", "10M", "--buffer-size", "16K"]);
    var a := Add(a, d.aria2c, ["--external-downloader", "aria2c", "--external-downloader-args", ARIA2C_ARGS]);
    var a := Add(a, d.cookies.Some?, ["--cookies", d.cookies.GetOr("")]);
    var a := a + ["--abort-on-unavailable-fragment", "--keep-fragments", "--no-check-certificates"];
    var a := Add(a, IsYoutubeHost(d.host), ["--remote-components", "ejs:github"]);
    Add(a, IsYoutubeHost(d.host) && d.node, ["--js-runtimes", "node"])
  }

  /** The arguments after the number of fragments, the URL last. */
  function After(d: Download): seq<string> {
    var a := FetchArgs(d) + SubtitleArgs(d) + SponsorArgs(d);
    var a := Add(a, d.rate.Some?, ["--limit-rate", d.rate.GetOr("")]);
    a + ["--remux-video", ContainerText(d.request.container)] + OutputArgs(d) + [d.url]
  }

  /** The whole list. */
  function Argv(d: Download): seq<string> {
    Before(d) + [FRAGMENTS_FLAG, Decimal(d.fragments)] + After(d)
  }

  /** `build_argv`; `None` is its ValueError for a URL that would be read as an option. */
  function BuildArgv(d: Download): Option<seq<string>> {
    if "-" <= d.url then None else Some(Argv(d))
  }

  /** The URL comes last and is never one that reads as an option. */
  lemma UrlIsLast(d: Download)
    ensures match BuildArgv(d)
      case None => d.url != "" && d.url[0] == '-'
      case Some(argv) => argv != [] && argv[|argv| - 1] == d.url && (d.url != "" ==> d.url[0] != '-')
  {
    hide Before, BuildSelector, FetchArgs, SubtitleArgs, SponsorArgs, OutputArgs, Add;
    assert After(d)[|After(d)| - 1] == d.url;
  }

  /** Arguments that are there only if asked for. */
  function Given(condition: bool, args: seq<string>): seq<string> {
    if condition then args else []
  }

  /** The whole list spelled out, option by option: up to the fragments, */
  function UpToFragments(d: Download): seq<string> {
    ["--format", BuildSelector(d.request), "--merge-output-format", if d.request.container == Mp4 then "mp4" else "mkv"]
    + Given(d.embedChapters, ["--embed-chapters"])
    + Given(d.embedMetadata, ["--embed-metadata"])
    + ["--no-playlist"]
  }

  /** how to fetch, */
  function HowToFetch(d: Download): seq<string> {
    ["--retries", Decimal(d.retries), "--fragment-retries", Decimal(d.retries)]
    + Given(d.stream == Hls || d.stream == Dash, ["--http-chunk-size", "10M", "--buffer-size", "16K"])
    + Given(d.aria2c, ["--external-downloader", "aria2c", "--external-downloader-args",
                       "aria2c:-x 4 -s 4 -j 4 --file-allocation=none --retry-wait=1"])
    + (match d.cookies case None => [] case Some(path) => ["--cookies", path])
    + ["--abort-on-unavailable-fragment", "--keep-fragments", "--no-check-certificates"]
    + Given(IsYoutubeHost(d.host), ["--remote-components", "ejs:github"])
    + Given(IsYoutubeHost(d.host) && d.node, ["--js-runtimes", "node"])
  }

  /** and what to make of it and where. */
  function WhatToMake(d: Download): seq<string> {
    ["--remux-video", if d.request.container == Mp4 then "mp4" else "mkv"]
    + ["--newline", "--progress", "--progress-template", "download:FA_PROGRESS %(progress)j",
       "--print-to-file", "after_move:%(filepath)s", d.jobDir + "/final_path",
       "-P", "home:" + d.jobDir, "-P", "temp:" + d.jobDir + "/tmp", "-o", "%(id)s.%(ext)s"]
  }

  lemma ArgvSpelled(d: Download)
    ensures !("-" <= d.url) ==>
      BuildArgv(d) == Some(
        UpToFragments(d) + ["--concurrent-fragments", Decimal(d.fragments)]
        + (HowToFetch(d) + SubtitlesSpelled(d) + SponsorSpelled(d)
           + (match d.rate case None => [] case Some(rate) => ["--limit-rate", rate])
           + WhatToMake(d) + [d.url]))
  {
    hide Before, After, UpToFragments, HowToFetch, WhatToMake, SubtitlesSpelled, SponsorSpelled, Decimal;
    BeforeSpelled(d);
    AfterSpelled(d);
  }

  lemma BeforeSpelled(d: Download)
    ensures Before(d) == UpToFragments(d)
  {
    hide BuildSelector, Given;
    AddIsGiven();
    hide Add;
  }

  lemma AfterSpelled(d: Download)
    ensures After(d) == HowToFetch(d) + SubtitlesSpelled(d) + SponsorSpelled(d)
      + (match d.rate case None => [] case Some(rate) => ["--limit-rate", rate])
      + WhatToMake(d) + [d.url]
  {
    hide SubtitlesSpelled, SponsorSpelled, SubtitleArgs, SponsorArgs, OutputArgs, FetchArgs, HowToFetch, Given;
    FetchSpelled(d);
    SubtitlesAreSpelled(d);
    SponsorIsSpelled(d);
    MakeSpelled(d);
    hide OutputArgs, WhatToMake;
    Regroup(HowToFetch(d) + SubtitlesSpelled(d) + SponsorSpelled(d)
            + (match d.rate case None => [] case Some(rate) => ["--limit-rate", rate]),
            ["--remux-video", ContainerText(d.request.container)], OutputArgs(d), [d.url]);
  }

  lemma FetchSpelled(d: Download)
    ensures FetchArgs(d) == HowToFetch(d)
  {
    hide Given, Add, Decimal, IsYoutubeHost, ARIA2C_ARGS;
    AriaIs();
    GivenIs(d.cookies, "--cookies");
    Chain(["--retries", Decimal(d.retries), "--fragment-retries", Decimal(d.retries)],
      d.stream != Http, ["--http-chunk-size", "10M", "--buffer-size", "16K"],
      d.aria2c, ["--external-downloader", "aria2c", "--external-downloader-args", ARIA2C_ARGS],
      d.cookies.Some?, ["--cookies", d.cookies.GetOr("")],
      ["--abort-on-unavailable-fragment", "--keep-fragments", "--no-check-certificates"],
      IsYoutubeHost(d.host), ["--remote-components", "ejs:github"],
      IsYoutubeHost(d.host) && d.node, ["--js-runtimes", "node"]);
  }

  lemma AriaIs()
    ensures ARIA2C_ARGS == "aria2c:-x 4 -s 4 -j 4 --file-allocation=none --retry-wait=1"
  {
  }

  lemma Chain(a: seq<string>, p: bool, b: seq<string>, q: bool, c: seq<string>, r: bool, d: seq<string>, m: seq<string>,
    s: bool, e: seq<string>, t: bool, f: seq<string>)
    ensures Add(Add(Add(Add(Add(a, p, b), q, c), r, d) + m, s, e), t, f)
            == a + Given(p, b) + Given(q, c) + Given(r, d) + m + Given(s, e) + Given(t, f)
  {
    hide Given;
    AddIsGiven();
    hide Add;
  }

  lemma GivenIs(value: Option<string>, flag: string)
    ensures Given(value.Some?, [flag, value.GetOr("")]) == match value case None => [] case Some(text) => [flag, text]
  {
  }

  lemma Regroup(a: seq<string>, b: seq<string>, c: seq<string>, e: seq<string>)
    ensures a + b + c + e == a + (b + c) + e
  {
    assert a + b + c == a + (b + c);
  }

  lemma MakeSpelled(d: Download)
    ensures WhatToMake(d) == ["--remux-video", ContainerText(d.request.container)] + OutputArgs(d)
  {
  }

  lemma AddIsGiven()
    ensures forall args, condition, more :: Add(args, condition, more) == args + Given(condition, more)
  {
  }

  function SubtitlesSpelled(d: Download): seq<string> {
    match d.subtitles
    case SubtitlesOff => []
    case Embed => ["--write-subs", "--sub-langs", d.languages] + Given(d.autoCaptions, ["--write-auto-subs"]) + ["--embed-subs"]
    case Sidecar =>
      ["--write-subs", "--sub-langs", d.languages] + Given(d.autoCaptions, ["--write-auto-subs"]) + ["--convert-subs", "srt"]
  }

  lemma SubtitlesAreSpelled(d: Download)
    ensures SubtitleArgs(d) == SubtitlesSpelled(d)
  {
  }

  function SponsorSpelled(d: Download): seq<string> {
    match d.sponsor
    case SponsorOff => []
    case Mark => ["--sponsorblock-mark", d.categories]
    case Remove => ["--sponsorblock-remove", d.categories]
  }

  lemma SponsorIsSpelled(d: Download)
    ensures SponsorArgs(d) == SponsorSpelled(d)
  {
  }

  /** The place of the first `--concurrent-fragments`, or the length when there is none. */
  function FlagIndex(argv: seq<string>): (i: nat)
    ensures i <= |argv| && FRAGMENTS_FLAG !in argv[..i]
    ensures i < |argv| ==> argv[i] == FRAGMENTS_FLAG
  {
    if argv == [] || argv[0] == FRAGMENTS_FLAG then 0
    else
      var i := FlagIndex(argv[1..]);
      assert argv[..i + 1] == [argv[0]] + argv[1..][..i];
      i + 1
  }

  /** What the downgrade makes of a list: the value after the first flag becomes `1`. `None`
      stands for the errors of `index` and of the assignment, when flag or value is missing. */
  function Downgraded(argv: seq<string>): Option<seq<string>> {
    var i := FlagIndex(argv);
    if i + 1 < |argv| then Some(argv[i + 1 := "1"]) else None
  }

  /** `downgrade_fragments`. */
  method DowngradeFragments(argv: seq<string>) returns (r: Option<seq<string>>)
    ensures r == Downgraded(argv)
  {
    var i := 0;
    while i < |argv| && argv[i] != FRAGMENTS_FLAG
      invariant 0 <= i <= |argv| && FRAGMENTS_FLAG !in argv[..i]
    {
      i := i + 1;
    }
    FlagIndexIs(argv, i);
    if i + 1 >= |argv| {
      return None;
    }
    return Some(argv[i + 1 := "1"]);
  }

  lemma FlagIndexIs(argv: seq<string>, i: nat)
    requires i <= |argv| && FRAGMENTS_FLAG !in argv[..i] && (i < |argv| ==> argv[i] == FRAGMENTS_FLAG)
    ensures FlagIndex(argv) == i
  {
  }

  /** Nothing before the flag looks like it, whatever the user asked for. */
  lemma FlagIsFirst(d: Download)
    ensures FRAGMENTS_FLAG !in Before(d)
  {
    hide BuildSelector;
    SelectorStartsWithB(d.request);
    assert BuildSelector(d.request) != FRAGMENTS_FLAG;
  }

  /** Downgrading the arguments is building them again with one fragment. */
  lemma DowngradeIsRebuild(d: Download)
    requires BuildArgv(d).Some?
    ensures Downgraded(BuildArgv(d).value) == BuildArgv(d.(fragments := 1))
  {
    hide Before, After, BuildSelector, Decimal, FlagIndex;
    FlagIsFirst(d);
    assert Before(d.(fragments := 1)) == Before(d) && After(d.(fragments := 1)) == After(d) by {
      FragmentsOnlyInTheMiddle(d);
    }
    var argv := Argv(d);
    var i := |Before(d)|;
    assert argv[..i] == Before(d) && argv[i] == FRAGMENTS_FLAG;
    FlagIndexIs(argv, i);
    OneIsOne();
    assert argv[i + 1 := "1"] == Before(d) + [FRAGMENTS_FLAG, "1"] + After(d);
  }

  lemma FragmentsOnlyInTheMiddle(d: Download)
    ensures Before(d.(fragments := 1)) == Before(d) && After(d.(fragments := 1)) == After(d)
  {
    hide BuildSelector, Decimal, IsYoutubeHost, Add;
  }

  lemma OneIsOne()
    ensures Decimal(1) == "1"
  {
  }

  /** Downgrading again changes nothing. */
  lemma DowngradeTwice(argv: seq<string>)
    requires Downgraded(argv).Some?
    ensures Downgraded(Downgraded(argv).value) == Downgraded(argv)
  {
    var i := FlagIndex(argv);
    var once := argv[i + 1 := "1"];
    assert once[..i] == argv[..i];
    FlagIndexIs(once, i);
    assert once[i + 1 := "1"] == once;
  }
}
