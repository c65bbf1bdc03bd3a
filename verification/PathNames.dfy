/** Where a video goes below the completed folder: `build_path` and its templates
    (backend/app/library/naming.py). */
module PathNames {
  import opened Wrappers
  import opened Text
  import opened Paths
  import opened Naming
  import Organizer

  const MAX_NAME_BYTES := 255
  const SUFFIX_RESERVE_BYTES := 40
  const FILE_LIMIT := 215

  datatype Date = Date(year: nat, month: nat, day: nat)

  datatype Target =
    | Movie(title: string, year: Option<nat>)
    | Episode(seriesTitle: string, season: nat, episode: nat, episodeTitle: string)
    | DailyEpisode(seriesTitle: string, airDate: Date, episodeTitle: string, seasonNumber: Option<nat>)
    | Other(title: string, id: string)

  datatype Templates = Templates(
    movieFolder: string, movieFile: string, seriesFolder: string, seasonFolder: string,
    specialsFolder: string, standardEpisode: string, dailyEpisode: string, other: string)

  const DEFAULT_TEMPLATES := Templates(
    "{Movie Title}" + " (" + "{Release Year}" + ")",
    "{Movie Title}" + " (" + "{Release Year}" + ") " + "{Quality Full}",
    "{Series Title}",
    "Season " + "{season}",
    "Specials",
    "{Series Title}" + " - S" + "{season:00}" + "E" + "{episode:00}" + " - " + "{Episode Title}" + " " + "{Quality Full}",
    "{Series Title}" + " - " + "{Air-Date}" + " - " + "{Episode Title}" + " " + "{Quality Full}",
    "{Title}" + " [" + "{Id}" + "]")

  predicate SlashFree(t: Templates) {
    && NoSlash(t.movieFolder) && NoSlash(t.movieFile) && NoSlash(t.seriesFolder) && NoSlash(t.seasonFolder)
    && NoSlash(t.specialsFolder) && NoSlash(t.standardEpisode) && NoSlash(t.dailyEpisode) && NoSlash(t.other)
  }

  /** `f"{n:02d}"`, and the four digits of an ISO year. */
  function Padded(n: nat, width: nat): string
    decreases width - |Decimal(n)|
  {
    PadLeft(Decimal(n), width)
  }

  function PadLeft(s: string, width: nat): string
    decreases width - |s|
  {
    if |s| >= width then s else PadLeft("0" + s, width)
  }

  function NoValues(quality: string): Values
  {
    Values("", "", "", "", "", "", "", "", quality, "", "")
  }

  /** `_values`. */
  function ValuesOf(target: Target, quality: string): Values
  {
    var none := NoValues(quality);
    match target
    case Movie(title, year) =>
      none.(movieTitle := title, releaseYear := if year.Some? then Decimal(year.value) else "")
    case Episode(series, season, episode, title) =>
      none.(seriesTitle := series, season := Decimal(season), season00 := Padded(season, 2),
            episode00 := Padded(episode, 2), episodeTitle := title)
    case DailyEpisode(series, date, title, number) =>
      var season := if number.Some? then number.value else date.year;
      none.(seriesTitle := series, season := Decimal(season), season00 := Padded(season, 2),
            airDate := Padded(date.year, 4) + "-" + Padded(date.month, 2) + "-" + Padded(date.day, 2),
            episodeTitle := title)
    case Other(title, id) => none.(title := title, id := id)
  }

  function Category(target: Target): string {
    match target
    case Movie(_, _) => "movies"
    case Episode(_, _, _, _) => "tv-shows"
    case DailyEpisode(_, _, _, _) => "tv-shows"
    case Other(_, _) => "other"
  }

  /** A component that stays where it is put: one name, never `.` or `..`. */
  predicate SafeComponent(s: string) {
    IsComponent(s) && s != "." && s != ".." && ByteLen(s) <= 255
  }

  lemma TrimmedIsSafe(name: string, suffix: string)
    requires name != "" && Trimmed(name) && '/' !in name && '/' !in suffix
    requires ByteLen(name) + ByteLen(suffix) <= MAX_NAME_BYTES
    ensures SafeComponent(name + suffix)
  {
    ByteLenConcat(name, suffix);
    assert (name + suffix)[0] == name[0];
  }

  /** What `build_path` promises about the segments it joins below the completed folder. */
  ghost predicate PathPromise(target: Target, templates: Templates, ext: string, segments: seq<string>) {
    && 2 <= |segments| <= 4 && segments[0] == Category(target)
    && IsFileName(segments[|segments| - 1], ext)
    && (SlashFree(templates) && '/' !in ext && ByteLen(ext) <= 40 ==>
          forall i :: 0 <= i < |segments| ==> SafeComponent(segments[i]))
  }

  /** The folder and file names of one template each, under their own limits. */
  ghost predicate NamePromise(templates: Templates, name: string, limit: nat) {
    && name != "" && Trimmed(name) && ByteLen(name) <= limit
    && (SlashFree(templates) ==> NoSlash(name))
  }

  /** The season a show's folder is for. */
  predicate IsSpecial(target: Target) {
    match target
    case Episode(_, season, _, _) => season == 0
    case DailyEpisode(_, date, _, number) => (if number.Some? then number.value else date.year) == 0
    case _ => false
  }

  function FileTemplate(target: Target, templates: Templates): string {
    match target
    case Movie(_, _) => templates.movieFile
    case Episode(_, _, _, _) => templates.standardEpisode
    case DailyEpisode(_, _, _, _) => templates.dailyEpisode
    case Other(_, _) => templates.other
  }

  /** The folders below the category, each from its own template. */
  function FolderNames(target: Target, quality: string, templates: Templates, colon: ColonMode): seq<string> {
    var values := ValuesOf(target, quality);
    match target
    case Movie(_, _) => [NameFor(templates.movieFolder, values, MAX_NAME_BYTES, colon)]
    case Other(_, _) => []
    case _ =>
      [NameFor(templates.seriesFolder, values, MAX_NAME_BYTES, colon),
       NameFor(if IsSpecial(target) then templates.specialsFolder else templates.seasonFolder, values, MAX_NAME_BYTES, colon)]
  }

  function BaseName(target: Target, quality: string, templates: Templates, colon: ColonMode): string {
    NameFor(FileTemplate(target, templates), ValuesOf(target, quality), FILE_LIMIT, colon)
  }

  /** The path of a video below the completed folder, unless one of its names is empty. */
  function PathOf(target: Target, quality: string, ext: string, templates: Templates, colon: ColonMode): Result<seq<string>> {
    Joined(Category(target), FolderNames(target, quality, templates, colon), BaseName(target, quality, templates, colon), ext)
  }

  function Joined(category: string, folders: seq<string>, base: string, ext: string): Result<seq<string>> {
    if base == "" || "" in folders then EmptyName else Ok([category] + folders + [base + ext])
  }

  lemma JoinedTwo(category: string, a: string, b: string, base: string, ext: string)
    ensures Joined(category, [a, b], base, ext) ==
            if base == "" || a == "" || b == "" then EmptyName else Ok([category, a, b, base + ext])
    ensures Joined(category, [a], base, ext) ==
            if base == "" || a == "" then EmptyName else Ok([category, a, base + ext])
    ensures Joined(category, [], base, ext) == if base == "" then EmptyName else Ok([category, base + ext])
  {
    assert [category] + [a, b] + [base + ext] == [category, a, b, base + ext];
    assert [category] + [a] + [base + ext] == [category, a, base + ext];
    assert [category] + [] + [base + ext] == [category, base + ext];
    assert a in [a, b] && b in [a, b] && a in [a];
  }

  /** The branch of `build_path` for both kinds of episode. */
  method BuildTvPath(values: Values, episode: string, series: string, season: string, ext: string, colon: ColonMode)
    returns (r: Result<seq<string>>)
    ensures r == Joined("tv-shows",
      [NameFor(series, values, MAX_NAME_BYTES, colon), NameFor(season, values, MAX_NAME_BYTES, colon)],
      NameFor(episode, values, FILE_LIMIT, colon), ext)
  {
    hide NameFor, ByteLen, Trimmed, NoSlash, Joined;
    JoinedTwo("tv-shows", NameFor(series, values, MAX_NAME_BYTES, colon),
      NameFor(season, values, MAX_NAME_BYTES, colon), NameFor(episode, values, FILE_LIMIT, colon), ext);
    var base := ShortName(episode, values, colon, FILE_LIMIT);
    if base.EmptyName? { return EmptyName; }
    var seriesName := ShortName(series, values, colon, MAX_NAME_BYTES);
    if seriesName.EmptyName? { return EmptyName; }
    var seasonName := ShortName(season, values, colon, MAX_NAME_BYTES);
    if seasonName.EmptyName? { return EmptyName; }
    return Ok(["tv-shows", seriesName.value, seasonName.value, base.value + ext]);
  }

  /** `build_path`. */
  method BuildPath(target: Target, quality: string, ext: string, templates: Templates, colon: ColonMode)
    returns (r: Result<seq<string>>)
    ensures r == PathOf(target, quality, ext, templates, colon)
  {
    hide ValuesOf, NameFor, IsSpecial, ByteLen, Trimmed, NoSlash, Joined;
    var values := ValuesOf(target, quality);
    match target
    case Movie(_, _) =>
      JoinedTwo("movies", NameFor(templates.movieFolder, values, MAX_NAME_BYTES, colon), "",
        NameFor(templates.movieFile, values, FILE_LIMIT, colon), ext);
      var base := ShortName(templates.movieFile, values, colon, FILE_LIMIT);
      if base.EmptyName? { return EmptyName; }
      var folder := ShortName(templates.movieFolder, values, colon, MAX_NAME_BYTES);
      if folder.EmptyName? { return EmptyName; }
      return Ok(["movies", folder.value, base.value + ext]);
    case Other(_, _) =>
      JoinedTwo("other", "", "", NameFor(templates.other, values, FILE_LIMIT, colon), ext);
      var base := ShortName(templates.other, values, colon, FILE_LIMIT);
      if base.EmptyName? { return EmptyName; }
      return Ok(["other", base.value + ext]);
    case _ =>
      var template := if target.Episode? then templates.standardEpisode else templates.dailyEpisode;
      SpecialIsZero(target, quality);
      var season := if values.season == "0" then templates.specialsFolder else templates.seasonFolder;
      r := BuildTvPath(values, template, templates.seriesFolder, season, ext, colon);
  }

  /** Every path is safe: with templates that hold no separator each component is one name,
      never `.` or `..`, and the file's base leaves room for a suffix of 40 bytes. */
  lemma PathIsSafe(target: Target, quality: string, ext: string, templates: Templates, colon: ColonMode)
    ensures var r := PathOf(target, quality, ext, templates, colon);
      r.Ok? ==> PathPromise(target, templates, ext, r.value)
  {
    hide ValuesOf, NameFor, PathPromise, ByteLen, Trimmed, NoSlash, IsSpecial;
    var r := PathOf(target, quality, ext, templates, colon);
    if r.Ok? {
      var folders, base := FolderNames(target, quality, templates, colon), BaseName(target, quality, templates, colon);
      NamesAreGood(FileTemplate(target, templates), ValuesOf(target, quality), FILE_LIMIT, colon);
      forall i | 0 <= i < |folders| ensures NamePromise(templates, folders[i], MAX_NAME_BYTES) {
        assert folders[i] in folders;
        FolderPromise(target, quality, templates, colon, i);
      }
      SegmentsAreSafe(r.value, target, templates, folders, base, ext);
    }
  }

  lemma FolderPromise(target: Target, quality: string, templates: Templates, colon: ColonMode, i: nat)
    requires i < |FolderNames(target, quality, templates, colon)|
    requires FolderNames(target, quality, templates, colon)[i] != ""
    ensures NamePromise(templates, FolderNames(target, quality, templates, colon)[i], MAX_NAME_BYTES)
  {
    hide ValuesOf, NameFor, ByteLen, Trimmed, NoSlash, IsSpecial;
    var template := if target.Movie? then templates.movieFolder
      else if i == 0 then templates.seriesFolder
      else if IsSpecial(target) then templates.specialsFolder
      else templates.seasonFolder;
    NamesAreGood(template, ValuesOf(target, quality), MAX_NAME_BYTES, colon);
  }

  lemma SpecialIsZero(target: Target, quality: string)
    requires target.Episode? || target.DailyEpisode?
    ensures ValuesOf(target, quality).season == "0" <==> IsSpecial(target)
  {
    var season := match target
      case Episode(_, season, _, _) => season
      case DailyEpisode(_, date, _, number) => if number.Some? then number.value else date.year
      case _ => 0;
    DecimalRoundTrip(season);
    DecimalRoundTrip(0);
  }

  /** `segment` is a trimmed base of at most 215 bytes with its extension, so a suffix of up
      to 40 bytes on the base still fits a file name. */
  ghost predicate IsFileName(segment: string, ext: string) {
    && |ext| < |segment| && segment[|segment| - |ext|..] == ext
    && var base := segment[..|segment| - |ext|];
      && Trimmed(base)
      && forall suffix: string {:trigger base + suffix} ::
        ByteLen(suffix) <= 40 ==> ByteLen(base + suffix) <= 255
  }

  lemma SegmentsAreSafe(segments: seq<string>, target: Target, templates: Templates, folders: seq<string>,
    base: string, ext: string)
    requires segments != [] && |folders| <= 2 && segments == [segments[0]] + folders + [base + ext]
    requires segments[0] == Category(target)
    requires NamePromise(templates, base, FILE_LIMIT)
    requires forall i :: 0 <= i < |folders| ==> NamePromise(templates, folders[i], MAX_NAME_BYTES)
    ensures PathPromise(target, templates, ext, segments)
  {
    assert IsFileName(base + ext, ext) by {
      assert (base + ext)[..|base|] == base && (base + ext)[|base|..] == ext;
      forall suffix: string | ByteLen(suffix) <= SUFFIX_RESERVE_BYTES
        ensures ByteLen(base + suffix) <= MAX_NAME_BYTES
      {
        ByteLenConcat(base, suffix);
      }
    }
    if SlashFree(templates) && '/' !in ext && ByteLen(ext) <= SUFFIX_RESERVE_BYTES {
      hide ByteLen, Category, IsFileName, SafeComponent;
      CategoriesAreSafe(Category(target));
      TrimmedIsSafe(base, ext);
      forall i | 0 <= i < |segments| ensures SafeComponent(segments[i]) {
        if 0 < i < |segments| - 1 {
          assert segments[i] == folders[i - 1];
          assert folders[i - 1] + "" == folders[i - 1];
          assert NamePromise(templates, folders[i - 1], MAX_NAME_BYTES);
          EmptySuffix();
          TrimmedIsSafe(folders[i - 1], "");
        }
      }
    }
  }

  lemma EmptySuffix()
    ensures ByteLen("") == 0
  {
  }

  lemma {:induction false} ByteLenBound(s: string)
    ensures ByteLen(s) <= 4 * |s|
  {
    if s != "" {
      ByteLenBound(s[..|s| - 1]);
    }
  }

  lemma CategoriesAreSafe(s: string)
    requires s in {"movies", "tv-shows", "other"}
    ensures SafeComponent(s)
  {
    ByteLenBound(s);
  }

  /** Safe segments below `completed` stay below it, however the result is resolved. */
  lemma StaysInside(completed: Path, segments: seq<string>)
    requires IsCanonical(completed)
    requires segments != [] && forall i :: 0 <= i < |segments| ==> SafeComponent(segments[i])
    ensures Resolve(completed + segments) == completed + segments
    ensures Under(Parent(completed + segments), completed + [segments[0]]) || |segments| == 1
  {
    ResolveCanonical(completed + segments);
    assert Parent(completed + segments) == completed + segments[..|segments| - 1];
  }

  /** What is built for a video is a destination the organize step takes as it is: its guard
      accepts it unchanged, and its name cannot be taken for a partial file's. */
  lemma GuardAcceptsBuiltPath(target: Target, quality: string, ext: string, templates: Templates, colon: ColonMode,
    completed: Path)
    requires IsCanonical(completed) && SlashFree(templates) && '/' !in ext && ByteLen(ext) <= 40
    requires PathOf(target, quality, ext, templates, colon).Ok?
    ensures var p := completed + PathOf(target, quality, ext, templates, colon).value;
      Organizer.Guard(p, completed) == Some(p) && Organizer.Plain(Name(p))
  {
    hide PathOf, ByteLen, SlashFree, IsFileName, Organizer.Guard;
    PathIsSafe(target, quality, ext, templates, colon);
    var segments := PathOf(target, quality, ext, templates, colon).value;
    var p := completed + segments;
    assert Parent(p) == completed + segments[..|segments| - 1];
    assert IsCanonical(p);
    assert IsCanonical(Parent(p));
    Organizer.RejectedIsOutside(p, completed);
    FileNameStarts(Name(p), ext);
  }

  lemma FileNameStarts(segment: string, ext: string)
    requires IsFileName(segment, ext)
    ensures segment[0] != '.'
  {
    assert segment[..|segment| - |ext|][0] == segment[0];
  }
}
