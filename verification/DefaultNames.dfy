/** The names that the default templates give (backend/app/library/naming.py). */
module DefaultNames {
  import opened Wrappers
  import opened Text
  import opened Naming
  import opened TemplateParts
  import opened PathNames

  // ------------------------------------------------------------- numbers

  /** `s` is the number in decimal digits, at least `width` of them, and more only as needed. */
  predicate Spells(s: string, n: nat, width: nat) {
    AllDigits(s) && DigitsValue(s) == n && |s| >= width && s != "" && (|s| > width && |s| > 1 ==> s[0] != '0')
  }

  lemma {:induction false} DecimalSpells(n: nat)
    ensures Spells(Decimal(n), n, 1)
  {
    DecimalRoundTrip(n);
    if n >= 10 {
      DecimalSpells(n / 10);
      assert Decimal(n) == Decimal(n / 10) + ['0' + (n % 10) as char];
      assert Decimal(n)[0] == Decimal(n / 10)[0];
      if |Decimal(n / 10)| == 1 { OneDigit(Decimal(n / 10)); }
    }
  }

  lemma OneDigit(s: string)
    requires |s| == 1 && AllDigits(s)
    ensures DigitsValue(s) == (s[0] - '0') as nat
  {
    assert s[..0] == "" && DigitsValue("") == 0;
  }

  lemma {:induction false} LeadingZero(s: string)
    requires AllDigits(s)
    ensures AllDigits("0" + s) && DigitsValue("0" + s) == DigitsValue(s)
  {
    var t := "0" + s;
    if s == "" {
      OneDigit(t);
      assert DigitsValue("") == 0;
    } else {
      LeadingZero(s[..|s| - 1]);
      assert t[..|t| - 1] == "0" + s[..|s| - 1] && t[|t| - 1] == s[|s| - 1];
    }
  }

  lemma {:induction false} PadLeftPads(s: string, width: nat)
    requires AllDigits(s) && s != ""
    ensures var r := PadLeft(s, width);
      AllDigits(r) && DigitsValue(r) == DigitsValue(s) && |r| == if |s| < width then width else |s|
    ensures |s| >= width ==> PadLeft(s, width) == s
    decreases width - |s|
  {
    if |s| < width {
      LeadingZero(s);
      PadLeftPads("0" + s, width);
    }
  }

  lemma PaddedSpells(n: nat, width: nat)
    ensures Spells(Padded(n, width), n, width)
  {
    DecimalSpells(n);
    PadLeftPads(Decimal(n), width);
  }

  lemma {:induction false} SameLengthSameDigits(s: string, t: string)
    requires AllDigits(s) && AllDigits(t) && |s| == |t| && DigitsValue(s) == DigitsValue(t)
    ensures s == t
  {
    if s != "" {
      SameLengthSameDigits(s[..|s| - 1], t[..|t| - 1]);
      assert s == s[..|s| - 1] + [s[|s| - 1]] && t == t[..|t| - 1] + [t[|t| - 1]];
    }
  }

  lemma {:induction false} ShorterIsLess(s: string, t: string)
    requires AllDigits(s) && AllDigits(t) && |s| < |t| && t[0] != '0'
    ensures DigitsValue(s) < DigitsValue(t)
  {
    if |t| == 1 {
      OneDigit(t);
    } else if s == "" {
      ShorterIsLess("", t[..|t| - 1]);
    } else {
      ShorterIsLess(s[..|s| - 1], t[..|t| - 1]);
    }
  }

  /** There is one such text. */
  lemma SpellsOnce(s: string, t: string, n: nat, width: nat)
    requires Spells(s, n, width) && Spells(t, n, width)
    ensures s == t
  {
    if |s| < |t| {
      ShorterIsLess(s, t);
    } else if |t| < |s| {
      ShorterIsLess(t, s);
    } else {
      SameLengthSameDigits(s, t);
    }
  }

  /** An ISO date. */
  ghost predicate SpellsDate(s: string, date: Date) {
    exists year, month, day ::
      s == year + "-" + month + "-" + day
      && Spells(year, date.year, 4) && Spells(month, date.month, 2) && Spells(day, date.day, 2)
  }

  // ------------------------------------------------------------- what every token reads

  /** Nothing but the tokens in `used` has a value. */
  predicate Only(values: Values, used: set<Token>) {
    forall t: Token :: t !in used ==> values.Get(t) == ""
  }

  /** Every token reads its own field of its own kind of target, and nothing else. */
  lemma EachTokenReads(target: Target, quality: string)
    ensures var v := ValuesOf(target, quality);
      v.qualityFull == quality &&
      match target
      case Movie(title, year) =>
        && v.movieTitle == title && (if year.None? then v.releaseYear == "" else Spells(v.releaseYear, year.value, 1))
        && Only(v, {MovieTitle, ReleaseYear, QualityFull})
      case Episode(series, season, episode, title) =>
        && v.seriesTitle == series && v.episodeTitle == title
        && Spells(v.season, season, 1) && Spells(v.season00, season, 2) && Spells(v.episode00, episode, 2)
        && Only(v, {SeriesTitle, Season, Season00, Episode00, EpisodeTitle, QualityFull})
      case DailyEpisode(series, date, title, number) =>
        && v.seriesTitle == series && v.episodeTitle == title && SpellsDate(v.airDate, date)
        && (var season := if number.None? then date.year else number.value;
            Spells(v.season, season, 1) && Spells(v.season00, season, 2))
        && Only(v, {SeriesTitle, Season, Season00, AirDate, EpisodeTitle, QualityFull})
      case Other(title, id) =>
        v.title == title && v.id == id && Only(v, {Title, Id, QualityFull})
  {
    hide Padded, Spells, Decimal, SpellsDate;
    match target
    case Movie(_, year) => if year.Some? { DecimalSpells(year.value); }
    case Episode(_, season, episode, _) =>
      DecimalSpells(season);
      PaddedSpells(season, 2);
      PaddedSpells(episode, 2);
    case DailyEpisode(_, date, _, number) =>
      var season := if number.None? then date.year else number.value;
      DecimalSpells(season);
      PaddedSpells(season, 2);
      IsoDateIs(date);
    case Other(_, _) =>
  }

  lemma IsoDateIs(date: Date)
    ensures SpellsDate(Padded(date.year, 4) + "-" + Padded(date.month, 2) + "-" + Padded(date.day, 2), date)
  {
    hide Padded, Spells;
    PaddedSpells(date.year, 4);
    PaddedSpells(date.month, 2);
    PaddedSpells(date.day, 2);
  }

  // ------------------------------------------------------------- text that stays as it is

  /** White space only as single plain spaces. */
  ghost predicate Tidy(s: string) {
    && (forall i :: 0 <= i < |s| ==> IsSpace(s[i]) ==> s[i] == ' ')
    && (forall i, j :: 0 <= i < j < |s| && j == i + 1 ==> !(s[i] == ' ' && s[j] == ' '))
  }

  /** Tidy, not empty, and with nothing to strip at its ends. */
  ghost predicate Solid(s: string) {
    s != "" && Tidy(s) && Trimmed(s)
  }

  lemma SolidStays(s: string)
    requires Solid(s)
    ensures Strip(Collapse(s), SPACE_DOT) == s
  {
    CollapseIdentity(s, false);
    StripIdentity(s, SPACE_DOT);
  }

  /** Two texts with something between them that separates. */
  lemma SolidJoin(a: string, between: string, b: string)
    requires Solid(a) && Solid(b) && Tidy(between)
    ensures Solid(a + between + b)
  {
    var s := a + between + b;
    forall i, j | 0 <= i < j < |s| && j == i + 1 ensures !(s[i] == ' ' && s[j] == ' ') {
      if j < |a| {
        assert s[i] == a[i] && s[j] == a[j];
      } else if i >= |a| + |between| {
        assert s[i] == b[i - |a| - |between|] && s[j] == b[j - |a| - |between|];
      } else if |a| <= i && j < |a| + |between| {
        assert s[i] == between[i - |a|] && s[j] == between[j - |a|];
      }
    }
  }

  lemma CleanIsSolid(s: string, colon: ColonMode)
    requires Sanitize(s, colon) != ""
    ensures Solid(Sanitize(s, colon))
  {
    SanitizeIsClean(s, colon);
  }

  /** Digits and dashes are kept by sanitizing. */
  lemma NumeralIsKept(s: string, colon: ColonMode)
    requires s != "" && forall i :: 0 <= i < |s| ==> '0' <= s[i] <= '9' || s[i] == '-'
    ensures Sanitize(s, colon) == s && Solid(s)
  {
    hide Sanitize;
    assert Clean(s) && Trimmed(s) && Tidy(s);
    SanitizeOfClean(s, colon);
  }

  // ------------------------------------------------------------- what each template says

  /** White space collapsed and the ends stripped, as every name is. */
  function Tidied(s: string): string {
    Strip(Collapse(s), SPACE_DOT)
  }

  const EPISODE: seq<Part> :=
    [Ask(SeriesTitle), Say(" - S"), Ask(Season00), Say("E"), Ask(Episode00), Say(" - "), Ask(EpisodeTitle), Say(" "),
     Ask(QualityFull)]

  const DAILY: seq<Part> :=
    [Ask(SeriesTitle), Say(" - "), Ask(AirDate), Say(" - "), Ask(EpisodeTitle), Say(" "), Ask(QualityFull)]

  lemma PlainSays(parts: seq<Part>, values: Values)
    requires forall i :: 0 <= i < |parts| ==> PartOk(parts[i])
    ensures Render(Written(parts), values) == Tidied(Said(parts, values))
  {
    hide Written, Said, Render, Collapse, Strip;
    RenderSays([Plain(parts)], values);
    assert Source([Plain(parts)]) == Written(parts) && AllSaid([Plain(parts)], values) == Said(parts, values);
  }

  lemma OnePart(part: Part, values: Values)
    ensures Written([part]) == WrittenPart(part) && Said([part], values) == SaidPart(part, values)
  {
  }

  lemma TwoParts(a: Part, b: Part, values: Values)
    ensures Written([a, b]) == WrittenPart(a) + WrittenPart(b)
    ensures Said([a, b], values) == SaidPart(a, values) + SaidPart(b, values)
  {
    Two([a, b], values);
  }

  lemma Nine(a: string, b: string, c: string, d: string, e: string, f: string, g: string, h: string, i: string)
    ensures a + (b + (c + (d + (e + (f + (g + (h + (i + "")))))))) == a + b + c + d + e + f + g + h + i
  {
    Five(a, b, c, d, e + (f + (g + (h + (i + "")))));
    Five(a + b + c + d, e, f, g, h + (i + ""));
    Five(a + b + c + d + e + f + g, h, i, "", "");
  }

  lemma Five(a: string, b: string, c: string, d: string, e: string)
    ensures a + (b + (c + (d + e))) == a + b + c + d + e
  {
    assert c + (d + e) == c + d + e;
    assert b + (c + d + e) == b + c + d + e;
  }

  lemma EpisodeChain(values: Values)
    ensures Written(EPISODE) ==
      Braced(SeriesTitle) + (" - S" + (Braced(Season00) + ("E" + (Braced(Episode00) + (" - " + (Braced(EpisodeTitle)
      + (" " + (Braced(QualityFull) + ""))))))))
    ensures Said(EPISODE, values) ==
      values.seriesTitle + (" - S" + (values.season00 + ("E" + (values.episode00 + (" - " + (values.episodeTitle
      + (" " + (values.qualityFull + ""))))))))
  {
    hide Braced;
    Two(EPISODE, values);
    Two(EPISODE[2..], values);
    Two(EPISODE[4..], values);
    Two(EPISODE[6..], values);
    assert EPISODE[2..][2..] == EPISODE[4..] && EPISODE[4..][2..] == EPISODE[6..] && EPISODE[6..][2..] == EPISODE[8..];
    assert EPISODE[8..] == [Ask(QualityFull)];
  }

  lemma EpisodeSays(v: Values)
    ensures Render(DEFAULT_TEMPLATES.standardEpisode, v) == Tidied(
      v.seriesTitle + " - S" + v.season00 + "E" + v.episode00 + " - " + v.episodeTitle + " " + v.qualityFull)
  {
    EpisodeChain(v);
    Nine(Braced(SeriesTitle), " - S", Braced(Season00), "E", Braced(Episode00), " - ", Braced(EpisodeTitle), " ",
      Braced(QualityFull));
    Nine(v.seriesTitle, " - S", v.season00, "E", v.episode00, " - ", v.episodeTitle, " ", v.qualityFull);
    hide Written, Said, Render, Tidied;
    PlainSays(EPISODE, v);
  }

  lemma DailyChain(values: Values)
    ensures Written(DAILY) ==
      Braced(SeriesTitle) + (" - " + (Braced(AirDate) + (" - " + (Braced(EpisodeTitle) + (" " + (Braced(QualityFull) + ""))))))
    ensures Said(DAILY, values) ==
      values.seriesTitle + (" - " + (values.airDate + (" - " + (values.episodeTitle + (" " + (values.qualityFull + ""))))))
  {
    hide Braced;
    Two(DAILY, values);
    Two(DAILY[2..], values);
    Two(DAILY[4..], values);
    assert DAILY[2..][2..] == DAILY[4..] && DAILY[4..][2..] == DAILY[6..];
    assert DAILY[6..] == [Ask(QualityFull)];
  }

  lemma DailySays(v: Values)
    ensures Render(DEFAULT_TEMPLATES.dailyEpisode, v) == Tidied(
      v.seriesTitle + " - " + v.airDate + " - " + v.episodeTitle + " " + v.qualityFull)
  {
    DailyChain(v);
    Seven(Braced(SeriesTitle), " - ", Braced(AirDate), " - ", Braced(EpisodeTitle), " ", Braced(QualityFull));
    Seven(v.seriesTitle, " - ", v.airDate, " - ", v.episodeTitle, " ", v.qualityFull);
    hide Written, Said, Render, Tidied;
    PlainSays(DAILY, v);
  }

  lemma Seven(a: string, b: string, c: string, d: string, e: string, f: string, g: string)
    ensures a + (b + (c + (d + (e + (f + (g + "")))))) == a + b + c + d + e + f + g
  {
    Five(a, b, c, d, e + (f + (g + "")));
    Five(a + b + c + d, e, f, g, "");
  }

  lemma SeriesSays(v: Values)
    ensures Render(DEFAULT_TEMPLATES.seriesFolder, v) == Tidied(v.seriesTitle)
  {
    OnePart(Ask(SeriesTitle), v);
    hide Render, Tidied, Written, Said;
    PlainSays([Ask(SeriesTitle)], v);
  }

  lemma SeasonSays(v: Values)
    ensures Render(DEFAULT_TEMPLATES.seasonFolder, v) == Tidied("Season " + v.season)
    ensures Render(DEFAULT_TEMPLATES.specialsFolder, v) == Tidied("Specials")
  {
    TwoParts(Say("Season "), Ask(Season), v);
    OnePart(Say("Specials"), v);
    hide Render, Tidied, Written, Said;
    PlainSays([Say("Season "), Ask(Season)], v);
    PlainSays([Say("Specials")], v);
  }

  /** The text of one token in brackets, gone when the token has no value. */
  function Bracketed(open: string, text: string, close: string): string {
    if text == "" then "" else open + text + close
  }

  lemma BlockSays(before: seq<Part>, square: bool, token: Token, after: seq<Part>, v: Values)
    requires forall i :: 0 <= i < |before| ==> PartOk(before[i])
    requires forall i :: 0 <= i < |after| ==> PartOk(after[i])
    ensures var open, close := if square then "[" else "(", if square then "]" else ")";
      Render(Written(before) + (open + Braced(token) + close) + Written(after), v) ==
      Tidied(Said(before, v) + Bracketed(open, v.Get(token), close) + Said(after, v))
  {
    hide Render, Tidied, Written, Said, Braced, Collapse, Strip, Source, AllSaid, Bracketed, Dropped;
    var pieces := [Plain(before), Block(square, [Ask(token)]), Plain(after)];
    PiecesOfThree(pieces, v);
    BlockPiece(square, token, v);
    TidiedIs(AllSaid(pieces, v));
    RenderSays(pieces, v);
  }

  lemma TidiedIs(s: string)
    ensures Tidied(s) == Strip(Collapse(s), SPACE_DOT)
  {
  }

  lemma BlockPiece(square: bool, token: Token, v: Values)
    ensures var open, close := if square then "[" else "(", if square then "]" else ")";
      && SourceOf(Block(square, [Ask(token)])) == open + Braced(token) + close
      && SaidOf(Block(square, [Ask(token)]), v) == Bracketed(open, v.Get(token), close)
  {
    OnePart(Ask(token), v);
    hide Written, Said, Braced;
    if v.Get(token) == "" { assert [Ask(token)][0].Ask?; }
  }

  lemma PiecesOfThree(pieces: seq<Piece>, v: Values)
    requires |pieces| == 3
    ensures Source(pieces) == SourceOf(pieces[0]) + SourceOf(pieces[1]) + SourceOf(pieces[2])
    ensures AllSaid(pieces, v) == SaidOf(pieces[0], v) + SaidOf(pieces[1], v) + SaidOf(pieces[2], v)
  {
    hide SourceOf, SaidOf;
    var one, two := pieces[1..], pieces[2..];
    assert one[1..] == two && two[1..] == [];
    assert Source(two) == SourceOf(pieces[2]) && AllSaid(two, v) == SaidOf(pieces[2], v);
    assert Source(one) == SourceOf(pieces[1]) + Source(two) && AllSaid(one, v) == SaidOf(pieces[1], v) + AllSaid(two, v);
  }

  lemma MovieFolderSays(v: Values)
    ensures Render(DEFAULT_TEMPLATES.movieFolder, v) == Tidied(v.movieTitle + " " + Bracketed("(", v.releaseYear, ")"))
  {
    var before := [Ask(MovieTitle), Say(" ")];
    TwoParts(Ask(MovieTitle), Say(" "), v);
    assert Written([]) == "" && Said([], v) == "";
    MovieFolderIs();
    hide Render, Tidied, Written, Said, Bracketed;
    BlockSays(before, false, ReleaseYear, [], v);
    var name := v.movieTitle + " " + Bracketed("(", v.releaseYear, ")");
    assert name + "" == name;
  }

  lemma Regroup(a: string, space: string, open: string, b: string, close: string, rest: string)
    ensures a + (space + open) + b + close + rest == a + space + (open + b + close) + rest
  {
    Five(a, space, open, b, close);
    Five(space, open, b, close, "");
    assert a + (space + open) == a + space + open;
    assert a + space + (open + b + close) == a + space + open + b + close;
  }

  lemma MovieFileIs()
    ensures DEFAULT_TEMPLATES.movieFile ==
      Braced(MovieTitle) + " " + ("(" + Braced(ReleaseYear) + ")") + (" " + Braced(QualityFull))
  {
    Regroup(Braced(MovieTitle), " ", "(", Braced(ReleaseYear), ")", " " + Braced(QualityFull));
    LastSpace(Braced(MovieTitle) + " (" + Braced(ReleaseYear), ")", " ", Braced(QualityFull));
  }

  lemma MovieFolderIs()
    ensures DEFAULT_TEMPLATES.movieFolder == Braced(MovieTitle) + " " + ("(" + Braced(ReleaseYear) + ")") + ""
  {
    Regroup(Braced(MovieTitle), " ", "(", Braced(ReleaseYear), ")", "");
    assert DEFAULT_TEMPLATES.movieFolder == Braced(MovieTitle) + " (" + Braced(ReleaseYear) + ")";
    hide Braced, DEFAULT_TEMPLATES;
    assert DEFAULT_TEMPLATES.movieFolder + "" == DEFAULT_TEMPLATES.movieFolder;
  }

  lemma OtherIs()
    ensures DEFAULT_TEMPLATES.other == Braced(Title) + " " + ("[" + Braced(Id) + "]") + ""
  {
    Regroup(Braced(Title), " ", "[", Braced(Id), "]", "");
    assert DEFAULT_TEMPLATES.other == Braced(Title) + " [" + Braced(Id) + "]";
    hide Braced, DEFAULT_TEMPLATES;
    assert DEFAULT_TEMPLATES.other + "" == DEFAULT_TEMPLATES.other;
  }

  lemma LastSpace(a: string, close: string, space: string, b: string)
    ensures a + close + (space + b) == a + (close + space) + b
  {
    assert a + (close + space) == a + close + space;
  }

  lemma MovieFileSays(v: Values)
    ensures Render(DEFAULT_TEMPLATES.movieFile, v) ==
      Tidied(v.movieTitle + " " + Bracketed("(", v.releaseYear, ")") + " " + v.qualityFull)
  {
    var before, after := [Ask(MovieTitle), Say(" ")], [Say(" "), Ask(QualityFull)];
    TwoParts(Ask(MovieTitle), Say(" "), v);
    TwoParts(Say(" "), Ask(QualityFull), v);
    MovieFileIs();
    hide Render, Tidied, Written, Said, Bracketed;
    BlockSays(before, false, ReleaseYear, after, v);
    assert v.movieTitle + " " + Bracketed("(", v.releaseYear, ")") + (" " + v.qualityFull)
           == v.movieTitle + " " + Bracketed("(", v.releaseYear, ")") + " " + v.qualityFull;
  }

  lemma OtherSays(v: Values)
    ensures Render(DEFAULT_TEMPLATES.other, v) == Tidied(v.title + " " + Bracketed("[", v.id, "]"))
  {
    var before := [Ask(Title), Say(" ")];
    TwoParts(Ask(Title), Say(" "), v);
    assert Written([]) == "" && Said([], v) == "";
    OtherIs();
    hide Render, Tidied, Written, Said, Bracketed;
    BlockSays(before, true, Id, [], v);
    assert v.title + " " + Bracketed("[", v.id, "]") + "" == v.title + " " + Bracketed("[", v.id, "]");
  }

  // ------------------------------------------------------------- where each kind of video goes

  /** A name that fits is the rendered one. */
  lemma FitsAsIs(template: string, values: Values, limit: nat, colon: ColonMode, name: string)
    requires Render(template, SanitizeAll(values, colon)) == name && ByteLen(name) <= limit
    ensures NameFor(template, values, limit, colon) == name
  {
    hide Render, SanitizeAll, ByteLen, Clean, Trimmed, NameOf, ShortTitle;
    AllClean(values, colon);
    TitleGivesWayFirst(template, SanitizeAll(values, colon), limit, colon);
  }

  lemma SpelledIsKept(s: string, n: nat, width: nat, colon: ColonMode)
    requires Spells(s, n, width)
    ensures Sanitize(s, colon) == s && Solid(s)
  {
    hide Sanitize, Solid;
    NumeralIsKept(s, colon);
  }

  /** What the sanitized values of an episode are. */
  lemma EpisodeValues(series: string, season: nat, episode: nat, title: string, quality: string, colon: ColonMode,
    s1: string, s2: string, e2: string)
    requires Spells(s1, season, 1) && Spells(s2, season, 2) && Spells(e2, episode, 2)
    ensures var v := SanitizeAll(ValuesOf(Episode(series, season, episode, title), quality), colon);
      && v.seriesTitle == Sanitize(series, colon) && v.episodeTitle == Sanitize(title, colon)
      && v.qualityFull == Sanitize(quality, colon)
      && v.season == s1 && v.season00 == s2 && v.episode00 == e2
  {
    hide Sanitize, ValuesOf, Spells, Solid;
    EachTokenReads(Episode(series, season, episode, title), quality);
    var v := ValuesOf(Episode(series, season, episode, title), quality);
    SpellsOnce(v.season, s1, season, 1);
    SpellsOnce(v.season00, s2, season, 2);
    SpellsOnce(v.episode00, e2, episode, 2);
    SpelledIsKept(s1, season, 1, colon);
    SpelledIsKept(s2, season, 2, colon);
    SpelledIsKept(e2, episode, 2, colon);
  }

  /** The folders of a show: its own, and that of the season or of the specials. */
  lemma ShowFolders(v: Values, colon: ColonMode, s1: string, season: nat)
    requires var w := SanitizeAll(v, colon); Solid(w.seriesTitle) && w.season == s1 && Spells(s1, season, 1)
    requires ByteLen(Sanitize(v.seriesTitle, colon)) <= 255 && ByteLen(s1) <= 215
    ensures NameFor(DEFAULT_TEMPLATES.seriesFolder, v, 255, colon) == Sanitize(v.seriesTitle, colon)
    ensures NameFor(DEFAULT_TEMPLATES.seasonFolder, v, 255, colon) == "Season " + s1
    ensures NameFor(DEFAULT_TEMPLATES.specialsFolder, v, 255, colon) == "Specials"
  {
    hide Render, Sanitize, ByteLen, NameFor, Solid, Spells;
    var w := SanitizeAll(v, colon);
    SeriesSays(w);
    SeasonSays(w);
    SolidStays(w.seriesTitle);
    FitsAsIs(DEFAULT_TEMPLATES.seriesFolder, v, 255, colon, w.seriesTitle);
    SpelledIsKept(s1, season, 1, colon);
    SeasonIsSolid(s1);
    FitsAsIs(DEFAULT_TEMPLATES.seasonFolder, v, 255, colon, "Season " + s1);
    FitsAsIs(DEFAULT_TEMPLATES.specialsFolder, v, 255, colon, "Specials");
  }

  lemma SeasonWord()
    ensures Solid("Season") && Tidy(" ") && "Season" + " " == "Season "
  {
  }

  lemma SpecialsWord()
    ensures Solid("Specials")
  {
  }

  lemma SeasonIsSolid(s1: string)
    requires Solid(s1) && ByteLen(s1) <= 215
    ensures Tidied("Season " + s1) == "Season " + s1 && ByteLen("Season " + s1) <= 255
    ensures Tidied("Specials") == "Specials" && ByteLen("Specials") <= 255
  {
    hide ByteLen, Solid, Tidy, Collapse, Strip;
    SeasonWord();
    SpecialsWord();
    SolidJoin("Season", " ", s1);
    SolidStays("Season " + s1);
    SolidStays("Specials");
    ByteLenConcat("Season ", s1);
    ByteLenBound("Season ");
    ByteLenBound("Specials");
  }

  lemma EpisodeNameIsSolid(s: string, s2: string, e2: string, t: string, q: string)
    requires Solid(s) && Solid(s2) && Solid(e2) && Solid(t) && Solid(q)
    ensures Solid(s + " - S" + s2 + "E" + e2 + " - " + t + " " + q)
  {
    assert Tidy(" - S") && Tidy("E") && Tidy(" - ") && Tidy(" ");
    hide Solid, Tidy;
    SolidJoin(s, " - S", s2);
    SolidJoin(s + " - S" + s2, "E", e2);
    SolidJoin(s + " - S" + s2 + "E" + e2, " - ", t);
    SolidJoin(s + " - S" + s2 + "E" + e2 + " - " + t, " ", q);
  }

  lemma PrefixFits(p: string, whole: string)
    requires p <= whole
    ensures ByteLen(p) <= ByteLen(whole)
  {
    hide ByteLen;
    assert p == whole[0..|p|];
    ByteLenSlice(whole, 0, |p|);
  }

  lemma {:induction false} DigitsFit(s: string)
    requires AllDigits(s)
    ensures ByteLen(s) == |s|
  {
    if s != "" { DigitsFit(s[..|s| - 1]); }
  }

  /** The number of a season is no longer than its two digits or more. */
  lemma ShortestFits(s1: string, s2: string, n: nat)
    requires Spells(s1, n, 1) && Spells(s2, n, 2)
    ensures ByteLen(s1) <= ByteLen(s2)
  {
    if |s1| > |s2| { ShorterIsLess(s2, s1); }
    DigitsFit(s1);
    DigitsFit(s2);
  }

  lemma SeasonFits(s: string, s1: string, s2: string, season: nat, name: string)
    requires Spells(s1, season, 1) && Spells(s2, season, 2) && s + " - S" + s2 <= name
    ensures ByteLen(s) <= ByteLen(name) && ByteLen(s1) <= ByteLen(name)
  {
    hide ByteLen, Spells;
    ShortestFits(s1, s2, season);
    PrefixFits(s + " - S" + s2, name);
    ByteLenConcat(s + " - S", s2);
    ByteLenConcat(s, " - S");
  }

  /** The documented name of an episode's file. */
  function EpisodeName(series: string, season: string, episode: string, title: string, quality: string): string {
    series + " - S" + season + "E" + episode + " - " + title + " " + quality
  }

  lemma EpisodePrefix(s: string, s2: string, e2: string, t: string, q: string)
    ensures s + " - S" + s2 <= EpisodeName(s, s2, e2, t, q) && EpisodeName(s, s2, e2, t, q) != ""
  {
  }

  lemma EpisodeBase(series: string, season: nat, episode: nat, title: string, quality: string, colon: ColonMode,
    s2: string, e2: string)
    requires Spells(s2, season, 2) && Spells(e2, episode, 2)
    requires Sanitize(series, colon) != "" && Sanitize(title, colon) != "" && Sanitize(quality, colon) != ""
    requires ByteLen(EpisodeName(Sanitize(series, colon), s2, e2, Sanitize(title, colon), Sanitize(quality, colon))) <= 215
    ensures NameFor(DEFAULT_TEMPLATES.standardEpisode, ValuesOf(Episode(series, season, episode, title), quality), 215, colon)
            == EpisodeName(Sanitize(series, colon), s2, e2, Sanitize(title, colon), Sanitize(quality, colon))
  {
    hide Sanitize, Render, ByteLen, NameFor, Solid, Spells, ValuesOf, SanitizeAll, Collapse, Strip;
    var s, t, q := Sanitize(series, colon), Sanitize(title, colon), Sanitize(quality, colon);
    var v := ValuesOf(Episode(series, season, episode, title), quality);
    DecimalSpells(season);
    EpisodeValues(series, season, episode, title, quality, colon, Decimal(season), s2, e2);
    EpisodeSays(SanitizeAll(v, colon));
    CleanIsSolid(series, colon);
    CleanIsSolid(title, colon);
    CleanIsSolid(quality, colon);
    SpelledIsKept(s2, season, 2, colon);
    SpelledIsKept(e2, episode, 2, colon);
    EpisodeNameIsSolid(s, s2, e2, t, q);
    SolidStays(EpisodeName(s, s2, e2, t, q));
    FitsAsIs(DEFAULT_TEMPLATES.standardEpisode, v, 215, colon, EpisodeName(s, s2, e2, t, q));
  }

  lemma ShowPath(target: Target, quality: string, ext: string, colon: ColonMode, series: string, season: string, name: string)
    requires target.Episode? || target.DailyEpisode?
    requires series != "" && season != "" && name != ""
    requires var v, special := ValuesOf(target, quality), IsSpecial(target);
      && NameFor(FileTemplate(target, DEFAULT_TEMPLATES), v, 215, colon) == name
      && NameFor(DEFAULT_TEMPLATES.seriesFolder, v, 255, colon) == series
      && NameFor(if special then DEFAULT_TEMPLATES.specialsFolder else DEFAULT_TEMPLATES.seasonFolder, v, 255, colon) == season
    ensures PathOf(target, quality, ext, DEFAULT_TEMPLATES, colon) == Ok(["tv-shows", series, season, name + ext])
  {
    hide NameFor, ValuesOf, IsSpecial, Joined, DEFAULT_TEMPLATES, FileTemplate;
    JoinedTwo("tv-shows", series, season, name, ext);
    assert FolderNames(target, quality, DEFAULT_TEMPLATES, colon) == [series, season];
  }

  /** An episode whose name fits, below its show and its season: the specials for season 0,
      otherwise the season by its number. */
  lemma EpisodePath(series: string, season: nat, episode: nat, title: string, quality: string, ext: string,
    colon: ColonMode, s1: string, s2: string, e2: string)
    requires Spells(s1, season, 1) && Spells(s2, season, 2) && Spells(e2, episode, 2)
    requires Sanitize(series, colon) != "" && Sanitize(title, colon) != "" && Sanitize(quality, colon) != ""
    requires ByteLen(EpisodeName(Sanitize(series, colon), s2, e2, Sanitize(title, colon), Sanitize(quality, colon))) <= 215
    ensures PathOf(Episode(series, season, episode, title), quality, ext, DEFAULT_TEMPLATES, colon) == Ok([
      "tv-shows",
      Sanitize(series, colon),
      if season == 0 then "Specials" else "Season " + s1,
      EpisodeName(Sanitize(series, colon), s2, e2, Sanitize(title, colon), Sanitize(quality, colon)) + ext])
  {
    hide Sanitize, Render, ByteLen, NameFor, Solid, Spells, ValuesOf, SanitizeAll, EpisodeName, PathOf;
    var s := Sanitize(series, colon);
    var name := EpisodeName(s, s2, e2, Sanitize(title, colon), Sanitize(quality, colon));
    var target := Episode(series, season, episode, title);
    EpisodeBase(series, season, episode, title, quality, colon, s2, e2);
    EpisodeValues(series, season, episode, title, quality, colon, s1, s2, e2);
    EpisodePrefix(s, s2, e2, Sanitize(title, colon), Sanitize(quality, colon));
    SeasonFits(s, s1, s2, season, name);
    CleanIsSolid(series, colon);
    EachTokenReads(target, quality);
    ShowFolders(ValuesOf(target, quality), colon, s1, season);
    ShowPath(target, quality, ext, colon, s, if season == 0 then "Specials" else "Season " + s1, name);
  }

  /** The season a daily show's episode is filed under. */
  function SeasonOf(date: Date, number: Option<nat>): nat {
    if number.Some? then number.value else date.year
  }

  lemma DailyValues(series: string, date: Date, title: string, number: Option<nat>, quality: string, colon: ColonMode,
    s1: string, y: string, m: string, d: string)
    requires Spells(s1, SeasonOf(date, number), 1)
    requires Spells(y, date.year, 4) && Spells(m, date.month, 2) && Spells(d, date.day, 2)
    ensures var v := SanitizeAll(ValuesOf(DailyEpisode(series, date, title, number), quality), colon);
      && v.seriesTitle == Sanitize(series, colon) && v.episodeTitle == Sanitize(title, colon)
      && v.qualityFull == Sanitize(quality, colon) && v.season == s1 && v.airDate == y + "-" + m + "-" + d
  {
    hide Sanitize, ValuesOf, Spells, Solid, SpellsDate;
    EachTokenReads(DailyEpisode(series, date, title, number), quality);
    var v := ValuesOf(DailyEpisode(series, date, title, number), quality);
    SpellsOnce(v.season, s1, SeasonOf(date, number), 1);
    SpelledIsKept(s1, SeasonOf(date, number), 1, colon);
    DateOnce(v.airDate, date, y, m, d);
    DateIsKept(date, y, m, d, colon);
  }

  lemma DateOnce(s: string, date: Date, y: string, m: string, d: string)
    requires SpellsDate(s, date) && Spells(y, date.year, 4) && Spells(m, date.month, 2) && Spells(d, date.day, 2)
    ensures s == y + "-" + m + "-" + d
  {
    hide Spells;
    var year, month, day :| s == year + "-" + month + "-" + day
      && Spells(year, date.year, 4) && Spells(month, date.month, 2) && Spells(day, date.day, 2);
    SpellsOnce(year, y, date.year, 4);
    SpellsOnce(month, m, date.month, 2);
    SpellsOnce(day, d, date.day, 2);
  }

  lemma DateIsKept(date: Date, y: string, m: string, d: string, colon: ColonMode)
    requires Spells(y, date.year, 4) && Spells(m, date.month, 2) && Spells(d, date.day, 2)
    ensures Sanitize(y + "-" + m + "-" + d, colon) == y + "-" + m + "-" + d && Solid(y + "-" + m + "-" + d)
  {
    hide Sanitize, Solid;
    NumeralIsKept(y + "-" + m + "-" + d, colon);
  }

  /** The documented name of a daily episode's file. */
  function DailyName(series: string, date: string, title: string, quality: string): string {
    series + " - " + date + " - " + title + " " + quality
  }

  lemma DailyNameIsSolid(s: string, d: string, t: string, q: string)
    requires Solid(s) && Solid(d) && Solid(t) && Solid(q)
    ensures Solid(DailyName(s, d, t, q)) && s <= DailyName(s, d, t, q)
  {
    assert Tidy(" - ") && Tidy(" ");
    hide Solid, Tidy;
    SolidJoin(s, " - ", d);
    SolidJoin(s + " - " + d, " - ", t);
    SolidJoin(s + " - " + d + " - " + t, " ", q);
  }

  lemma DailyBase(series: string, date: Date, title: string, number: Option<nat>, quality: string, colon: ColonMode,
    y: string, m: string, d: string)
    requires Spells(y, date.year, 4) && Spells(m, date.month, 2) && Spells(d, date.day, 2)
    requires Sanitize(series, colon) != "" && Sanitize(title, colon) != "" && Sanitize(quality, colon) != ""
    requires var s, t, q := Sanitize(series, colon), Sanitize(title, colon), Sanitize(quality, colon);
      ByteLen(DailyName(s, y + "-" + m + "-" + d, t, q)) <= 215
    ensures NameFor(DEFAULT_TEMPLATES.dailyEpisode, ValuesOf(DailyEpisode(series, date, title, number), quality), 215, colon)
            == DailyName(Sanitize(series, colon), y + "-" + m + "-" + d, Sanitize(title, colon), Sanitize(quality, colon))
  {
    hide Sanitize, Render, ByteLen, NameFor, Solid, Spells, ValuesOf, SanitizeAll, Collapse, Strip;
    var s, t, q := Sanitize(series, colon), Sanitize(title, colon), Sanitize(quality, colon);
    var v := ValuesOf(DailyEpisode(series, date, title, number), quality);
    DecimalSpells(SeasonOf(date, number));
    DailyValues(series, date, title, number, quality, colon, Decimal(SeasonOf(date, number)), y, m, d);
    DailySays(SanitizeAll(v, colon));
    CleanIsSolid(series, colon);
    CleanIsSolid(title, colon);
    CleanIsSolid(quality, colon);
    DateIsKept(date, y, m, d, colon);
    DailyNameIsSolid(s, y + "-" + m + "-" + d, t, q);
    SolidStays(DailyName(s, y + "-" + m + "-" + d, t, q));
    FitsAsIs(DEFAULT_TEMPLATES.dailyEpisode, v, 215, colon, DailyName(s, y + "-" + m + "-" + d, t, q));
  }

  /** An episode of a daily show whose name fits, by its date, in the folder of its season or,
      without one, of its year. */
  lemma DailyPath(series: string, date: Date, title: string, number: Option<nat>, quality: string, ext: string,
    colon: ColonMode, s1: string, y: string, m: string, d: string)
    requires Spells(s1, SeasonOf(date, number), 1) && ByteLen(s1) <= 215
    requires Spells(y, date.year, 4) && Spells(m, date.month, 2) && Spells(d, date.day, 2)
    requires Sanitize(series, colon) != "" && Sanitize(title, colon) != "" && Sanitize(quality, colon) != ""
    requires var s, t, q := Sanitize(series, colon), Sanitize(title, colon), Sanitize(quality, colon);
      ByteLen(DailyName(s, y + "-" + m + "-" + d, t, q)) <= 215
    ensures PathOf(DailyEpisode(series, date, title, number), quality, ext, DEFAULT_TEMPLATES, colon) == Ok([
      "tv-shows",
      Sanitize(series, colon),
      if SeasonOf(date, number) == 0 then "Specials" else "Season " + s1,
      DailyName(Sanitize(series, colon), y + "-" + m + "-" + d, Sanitize(title, colon), Sanitize(quality, colon)) + ext])
  {
    hide Sanitize, Render, ByteLen, NameFor, Solid, Spells, ValuesOf, SanitizeAll, DailyName, PathOf;
    var s := Sanitize(series, colon);
    var date0 := y + "-" + m + "-" + d;
    var name := DailyName(s, date0, Sanitize(title, colon), Sanitize(quality, colon));
    var target := DailyEpisode(series, date, title, number);
    DailyBase(series, date, title, number, quality, colon, y, m, d);
    DailyValues(series, date, title, number, quality, colon, s1, y, m, d);
    CleanIsSolid(series, colon);
    CleanIsSolid(title, colon);
    CleanIsSolid(quality, colon);
    DateIsKept(date, y, m, d, colon);
    DailyNameIsSolid(s, date0, Sanitize(title, colon), Sanitize(quality, colon));
    SolidIsSome(name);
    PrefixFits(s, name);
    EachTokenReads(target, quality);
    ShowFolders(ValuesOf(target, quality), colon, s1, SeasonOf(date, number));
    ShowPath(target, quality, ext, colon, s, if SeasonOf(date, number) == 0 then "Specials" else "Season " + s1, name);
  }

  lemma SolidIsSome(s: string)
    requires Solid(s)
    ensures s != ""
  {
  }

  // ------------------------------------------------------------- a block that is dropped

  lemma {:induction false} CollapseSolidStart(a: string, rest: string, inRun: bool)
    requires a != "" && Tidy(a) && a[|a| - 1] != ' ' && (inRun ==> a[0] != ' ')
    ensures Collapse(a + rest, inRun) == a + Collapse(rest, false)
  {
    assert (a + rest)[1..] == a[1..] + rest;
    if |a| == 1 {
      assert a[1..] + rest == rest;
    } else {
      assert Tidy(a[1..]) by { TidyTail(a); }
      CollapseSolidStart(a[1..], rest, IsSpace(a[0]));
      assert a == [a[0]] + a[1..];
    }
  }

  lemma TidyTail(a: string)
    requires Tidy(a) && a != ""
    ensures Tidy(a[1..])
  {
    assert forall i :: 0 <= i < |a[1..]| ==> a[1..][i] == a[i + 1];
  }

  /** A space at the end goes, and two in the middle become one. */
  lemma SpacesLeftBehind(a: string, b: string)
    requires Solid(a) && Solid(b)
    ensures Tidied(a + " ") == a && Tidied(a + " " + " " + b) == a + " " + b
  {
    hide Strip;
    CollapseSolidStart(a, " ", false);
    assert Collapse("") == "" && Collapse(" ") == " " by { assert " "[1..] == ""; }
    StripBetween("", a, " ", SPACE_DOT);
    assert "" + a + " " == a + " ";
    CollapseSolidStart(a, "  " + b, false);
    assert a + " " + " " + b == a + ("  " + b);
    TwoSpaces(b);
    SolidJoin(a, " ", b);
    StripIdentity(a + " " + b, SPACE_DOT);
    assert a + (" " + b) == a + " " + b;
  }

  lemma TwoSpaces(b: string)
    requires Solid(b)
    ensures Collapse("  " + b) == " " + b
  {
    hide Collapse;
    assert "  " + b == " " + (" " + b);
    CollapseSpace(" " + b, false);
    CollapseSpace(b, true);
    CollapseIdentity(b, true);
  }

  lemma CollapseSpace(rest: string, inRun: bool)
    ensures Collapse(" " + rest, inRun) == (if inRun then "" else " ") + Collapse(rest, true)
  {
    assert (" " + rest)[1..] == rest;
  }

  lemma InBracketsIsSolid(a: string, open: string, b: string, close: string)
    requires Solid(a) && Solid(b) && ((open == "(" && close == ")") || (open == "[" && close == "]"))
    ensures Solid(a + " " + Bracketed(open, b, close))
  {
    assert Solid(open) && Solid(close) && Tidy("") && Tidy(" ");
    SolidJoin(open, "", b);
    SolidJoin(open + b, "", close);
    assert open + "" + b == open + b && open + b + "" + close == open + b + close;
    SolidJoin(a, " ", open + b + close);
  }

  lemma SolidSpaced(a: string, b: string)
    requires Solid(a) && Solid(b)
    ensures Solid(a + " " + b)
  {
    SolidJoin(a, " ", b);
  }

  /** The documented folder of a movie: its title and, where it is known, its year. */
  function MovieFolder(title: string, year: string): string {
    if year == "" then title else title + " " + Bracketed("(", year, ")")
  }

  function MovieName(title: string, year: string, quality: string): string {
    MovieFolder(title, year) + " " + quality
  }

  lemma MovieTexts(t: string, y: string, q: string)
    requires Solid(t) && Solid(q) && (y != "" ==> Solid(y))
    ensures Tidied(t + " " + Bracketed("(", y, ")")) == MovieFolder(t, y)
    ensures Tidied(t + " " + Bracketed("(", y, ")") + " " + q) == MovieName(t, y, q)
    ensures Solid(MovieFolder(t, y)) && MovieFolder(t, y) <= MovieName(t, y, q)
  {
    hide Solid, Collapse, Strip;
    if y == "" {
      SpacesLeftBehind(t, q);
      assert t + " " + "" == t + " ";
    } else {
      InBracketsIsSolid(t, "(", y, ")");
      SolidSpaced(MovieFolder(t, y), q);
      SolidStays(MovieFolder(t, y));
      SolidStays(MovieName(t, y, q));
    }
  }

  lemma MovieValues(title: string, year: Option<nat>, quality: string, colon: ColonMode, y: string)
    requires if year.None? then y == "" else Spells(y, year.value, 1)
    ensures var v := SanitizeAll(ValuesOf(Movie(title, year), quality), colon);
      v.movieTitle == Sanitize(title, colon) && v.releaseYear == y && v.qualityFull == Sanitize(quality, colon)
    ensures y != "" ==> Solid(y)
  {
    hide Sanitize, ValuesOf, Spells, Solid;
    EachTokenReads(Movie(title, year), quality);
    var v := ValuesOf(Movie(title, year), quality);
    if year.Some? {
      SpellsOnce(v.releaseYear, y, year.value, 1);
      SpelledIsKept(y, year.value, 1, colon);
    } else {
      EmptyIsKept(colon);
    }
  }

  lemma EmptyIsKept(colon: ColonMode)
    ensures Sanitize("", colon) == ""
  {
    SanitizeOfClean("", colon);
  }

  /** A movie whose name fits, in a folder of its own. */
  lemma MoviePath(title: string, year: Option<nat>, quality: string, ext: string, colon: ColonMode, y: string)
    requires if year.None? then y == "" else Spells(y, year.value, 1)
    requires Sanitize(title, colon) != "" && Sanitize(quality, colon) != ""
    requires ByteLen(MovieName(Sanitize(title, colon), y, Sanitize(quality, colon))) <= 215
    ensures PathOf(Movie(title, year), quality, ext, DEFAULT_TEMPLATES, colon) == Ok([
      "movies",
      MovieFolder(Sanitize(title, colon), y),
      MovieName(Sanitize(title, colon), y, Sanitize(quality, colon)) + ext])
  {
    hide Sanitize, Render, ByteLen, NameFor, Solid, Spells, ValuesOf, SanitizeAll, Tidied;
    hide MovieFolder, MovieName, Bracketed, Joined;
    var t, q := Sanitize(title, colon), Sanitize(quality, colon);
    var v := ValuesOf(Movie(title, year), quality);
    var folder, name := MovieFolder(t, y), MovieName(t, y, q);
    MovieValues(title, year, quality, colon, y);
    CleanIsSolid(title, colon);
    CleanIsSolid(quality, colon);
    MovieTexts(t, y, q);
    PrefixFits(folder, name);
    SolidIsSome(folder);
    MovieFolderSays(SanitizeAll(v, colon));
    MovieFileSays(SanitizeAll(v, colon));
    FitsAsIs(DEFAULT_TEMPLATES.movieFolder, v, 255, colon, folder);
    FitsAsIs(DEFAULT_TEMPLATES.movieFile, v, 215, colon, name);
    JoinedTwo("movies", folder, "", name, ext);
  }

  /** The documented name of any other video: its title and its id. */
  function OtherName(title: string, id: string): string {
    if id == "" then title else title + " " + Bracketed("[", id, "]")
  }

  lemma OtherTexts(t: string, i: string)
    requires Solid(t) && (i != "" ==> Solid(i))
    ensures Tidied(t + " " + Bracketed("[", i, "]")) == OtherName(t, i) && OtherName(t, i) != ""
  {
    hide Collapse, Strip;
    if i == "" {
      SpacesLeftBehind(t, t);
      assert t + " " + "" == t + " ";
    } else {
      InBracketsIsSolid(t, "[", i, "]");
      SolidStays(OtherName(t, i));
    }
  }

  /** Any other video whose name fits. */
  lemma OtherPath(title: string, id: string, quality: string, ext: string, colon: ColonMode)
    requires Sanitize(title, colon) != "" && ByteLen(OtherName(Sanitize(title, colon), Sanitize(id, colon))) <= 215
    ensures PathOf(Other(title, id), quality, ext, DEFAULT_TEMPLATES, colon) ==
      Ok(["other", OtherName(Sanitize(title, colon), Sanitize(id, colon)) + ext])
  {
    hide Sanitize, Render, ByteLen, NameFor, Solid, ValuesOf, SanitizeAll, Tidied, OtherName, Bracketed, Joined;
    var t, i := Sanitize(title, colon), Sanitize(id, colon);
    var v := ValuesOf(Other(title, id), quality);
    EachTokenReads(Other(title, id), quality);
    OtherValues(v, colon);
    CleanIsSolid(title, colon);
    if i != "" { CleanIsSolid(id, colon); }
    OtherTexts(t, i);
    OtherSays(SanitizeAll(v, colon));
    FitsAsIs(DEFAULT_TEMPLATES.other, v, 215, colon, OtherName(t, i));
    JoinedTwo("other", "", "", OtherName(t, i), ext);
  }

  lemma OtherValues(v: Values, colon: ColonMode)
    ensures SanitizeAll(v, colon).title == Sanitize(v.title, colon) && SanitizeAll(v, colon).id == Sanitize(v.id, colon)
  {
    hide Sanitize;
  }

  /** The default templates hold no separator, so the paths they give are safe. */
  lemma DefaultsAreSlashFree()
    ensures SlashFree(DEFAULT_TEMPLATES)
  {
    NoSlashInParts();
    var d := DEFAULT_TEMPLATES;
    assert d.movieFolder == Braced(MovieTitle) + " (" + Braced(ReleaseYear) + ")";
    assert d.movieFile == Braced(MovieTitle) + " (" + Braced(ReleaseYear) + ") " + Braced(QualityFull);
    assert d.seriesFolder == Braced(SeriesTitle) && d.seasonFolder == "Season " + Braced(Season);
    assert d.standardEpisode == Braced(SeriesTitle) + " - S" + Braced(Season00) + "E" + Braced(Episode00) + " - "
                                + Braced(EpisodeTitle) + " " + Braced(QualityFull);
    assert d.dailyEpisode == Braced(SeriesTitle) + " - " + Braced(AirDate) + " - " + Braced(EpisodeTitle) + " "
                             + Braced(QualityFull);
    assert d.other == Braced(Title) + " [" + Braced(Id) + "]";
    hide Braced, DEFAULT_TEMPLATES;
  }

  lemma NoSlashInParts()
    ensures forall t: Token :: '/' !in Braced(t)
    ensures '/' !in "Season " && '/' !in "Specials"
  {
  }
}
