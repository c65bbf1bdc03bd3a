/** Folder and file names rendered from templates, within a byte limit
    (backend/app/library/naming.py). */
module Naming {
  import opened Wrappers
  import opened Text
  import opened Paths

  // ------------------------------------------------------------------ sanitize

  datatype ColonMode = Smart | Delete | Dash | SpaceDash | SpaceDashSpace

  /** `text.replace(c, by)` for a single character. */
  function ReplaceChar(s: string, c: char, with: string): string {
    if s == "" then ""
    else (if s[0] == c then with else [s[0]]) + ReplaceChar(s[1..], c, with)
  }

  /** `text.replace(": ", " - ")`. */
  function ReplaceColonSpace(s: string): string {
    if s == "" then ""
    else if |s| >= 2 && s[0] == ':' && s[1] == ' ' then " - " + ReplaceColonSpace(s[2..])
    else [s[0]] + ReplaceColonSpace(s[1..])
  }

  function ReplaceColons(s: string, colon: ColonMode): string {
    match colon
    case Smart => ReplaceChar(ReplaceColonSpace(s), ':', "-")
    case Delete => ReplaceChar(s, ':', "")
    case Dash => ReplaceChar(s, ':', "-")
    case SpaceDash => ReplaceChar(s, ':', " -")
    case SpaceDashSpace => ReplaceChar(s, ':', " - ")
  }

  predicate IsIllegal(c: char) {
    c == '\\' || c == '/' || c == '*' || c == '?' || c == '\"' || c == '<' || c == '>' || c == '|'
  }

  function RemoveIllegal(s: string): string {
    if s == "" then ""
    else (if IsIllegal(s[0]) then "" else [s[0]]) + RemoveIllegal(s[1..])
  }

  /** `re.sub(r"\s+", " ", text)`; `inRun` says the character before was white space. */
  function Collapse(s: string, inRun: bool := false): string {
    if s == "" then ""
    else if IsSpace(s[0]) then (if inRun then "" else " ") + Collapse(s[1..], true)
    else [s[0]] + Collapse(s[1..], false)
  }

  const SPACE_DOT := {' ', '.'}

  function Sanitize(s: string, colon: ColonMode): string {
    Strip(Collapse(RemoveIllegal(ReplaceColons(s, colon))), SPACE_DOT)
  }

  /** No colon, no character a file system refuses, and only single plain spaces. */
  ghost predicate Clean(s: string) {
    && (forall i :: 0 <= i < |s| ==>
          s[i] !in {':', '\\', '/', '*', '?', '\"', '<', '>', '|'} && (IsSpace(s[i]) ==> s[i] == ' '))
    && (forall i, j :: 0 <= i < j < |s| && j == i + 1 ==> !(s[i] == ' ' && s[j] == ' '))
  }

  /** Neither end is a space or a dot. */
  predicate Trimmed(s: string) {
    s != "" ==> s[0] !in SPACE_DOT && s[|s| - 1] !in SPACE_DOT
  }

  lemma {:induction false} ReplaceCharRemoves(s: string, c: char, with: string)
    requires c !in with
    ensures c !in ReplaceChar(s, c, with)
  {
    if s != "" {
      ReplaceCharRemoves(s[1..], c, with);
    }
  }

  lemma {:induction false} ReplaceCharIdentity(s: string, c: char, with: string)
    requires c !in s
    ensures ReplaceChar(s, c, with) == s
  {
    if s != "" {
      ReplaceCharIdentity(s[1..], c, with);
    }
  }

  lemma {:induction false} ReplaceColonSpaceIdentity(s: string)
    requires ':' !in s
    ensures ReplaceColonSpace(s) == s
  {
    if s != "" {
      ReplaceColonSpaceIdentity(s[1..]);
    }
  }

  lemma ReplaceColonsRemoves(s: string, colon: ColonMode)
    ensures ':' !in ReplaceColons(s, colon)
    ensures ':' !in s ==> ReplaceColons(s, colon) == s
  {
    var t := if colon == Smart then ReplaceColonSpace(s) else s;
    var dash := match colon case Smart => "-" case Delete => "" case Dash => "-" case SpaceDash => " -"
              case SpaceDashSpace => " - ";
    ReplaceCharRemoves(t, ':', dash);
    if ':' !in s {
      ReplaceColonSpaceIdentity(s);
      ReplaceCharIdentity(s, ':', dash);
    }
  }

  lemma {:induction false} RemoveIllegalRemoves(s: string)
    ensures forall c :: c in RemoveIllegal(s) <==> c in s && !IsIllegal(c)
    ensures (forall i :: 0 <= i < |s| ==> !IsIllegal(s[i])) ==> RemoveIllegal(s) == s
  {
    if s != "" {
      RemoveIllegalRemoves(s[1..]);
    }
  }

  lemma {:induction false} CollapseCollapses(s: string, inRun: bool)
    ensures var r := Collapse(s, inRun);
      && (forall i :: 0 <= i < |r| ==> (r[i] in s || r[i] == ' ') && (IsSpace(r[i]) ==> r[i] == ' '))
      && (forall i, j :: 0 <= i < j < |r| && j == i + 1 ==> !(r[i] == ' ' && r[j] == ' '))
      && (inRun && r != "" ==> r[0] != ' ')
      && (forall c :: c in s && !IsSpace(c) ==> c in r)
  {
    if s != "" {
      CollapseCollapses(s[1..], IsSpace(s[0]));
    }
  }

  lemma {:induction false} CollapseIdentity(s: string, inRun: bool)
    requires forall i :: 0 <= i < |s| ==> IsSpace(s[i]) ==> s[i] == ' '
    requires forall i, j :: 0 <= i < j < |s| && j == i + 1 ==> !(s[i] == ' ' && s[j] == ' ')
    requires inRun && s != "" ==> s[0] != ' '
    ensures Collapse(s, inRun) == s
  {
    if s != "" {
      assert forall i :: 0 <= i < |s[1..]| ==> s[1..][i] == s[i + 1];
      CollapseIdentity(s[1..], IsSpace(s[0]));
    }
  }

  /** Every sanitized text is clean and trimmed, whatever it was made from: no separator,
      no illegal character, never `.` or `..`. */
  lemma SanitizeIsClean(s: string, colon: ColonMode)
    ensures Clean(Sanitize(s, colon)) && Trimmed(Sanitize(s, colon))
  {
    var a := ReplaceColons(s, colon);
    ReplaceColonsRemoves(s, colon);
    RemoveIllegalRemoves(a);
    CollapseIsClean(RemoveIllegal(a));
    var c := Collapse(RemoveIllegal(a));
    var i, j := StripIsSlice(c, SPACE_DOT);
    CleanSlice(c, i, j);
  }

  lemma CollapseIsClean(s: string)
    requires forall c :: c in s ==> c != ':' && !IsIllegal(c)
    ensures Clean(Collapse(s))
  {
    CollapseCollapses(s, false);
    var r := Collapse(s);
    forall i | 0 <= i < |r| ensures r[i] != ':' && !IsIllegal(r[i]) {
      assert r[i] in s || r[i] == ' ';
    }
  }

  lemma CleanSlice(s: string, i: nat, j: nat)
    requires Clean(s) && i <= j <= |s|
    ensures Clean(s[i..j])
  {
    var r := s[i..j];
    assert forall k :: 0 <= k < |r| ==> r[k] == s[i + k];
    forall k, l | 0 <= k < l < |r| && l == k + 1 ensures !(r[k] == ' ' && r[l] == ' ') {
      assert r[k] == s[i + k] && r[l] == s[i + l];
    }
  }

  /** Sanitizing again changes nothing, except that a cut can leave an end to strip. */
  lemma SanitizeOfClean(s: string, colon: ColonMode)
    requires Clean(s)
    ensures Sanitize(s, colon) == Strip(s, SPACE_DOT)
    ensures Trimmed(s) ==> Sanitize(s, colon) == s
  {
    CleanIsKept(s, colon);
    if Trimmed(s) {
      StripIdentity(s, SPACE_DOT);
    }
  }

  lemma CleanIsKept(s: string, colon: ColonMode)
    requires Clean(s)
    ensures ReplaceColons(s, colon) == s && RemoveIllegal(s) == s && Collapse(s) == s
  {
    assert ':' !in s;
    ReplaceColonsRemoves(s, colon);
    RemoveIllegalRemoves(s);
    CollapseIdentity(s, false);
  }

  // What each of the three passes does, one character or run at a time.

  lemma {:induction false} ReplaceCharConcat(a: string, b: string, c: char, with: string)
    ensures ReplaceChar(a + b, c, with) == ReplaceChar(a, c, with) + ReplaceChar(b, c, with)
  {
    if a == "" {
      assert a + b == b;
    } else {
      assert (a + b)[1..] == a[1..] + b;
      ReplaceCharConcat(a[1..], b, c, with);
    }
  }

  lemma {:induction false} ReplaceColonSpaceAfter(a: string, b: string)
    requires ':' !in a
    ensures ReplaceColonSpace(a + b) == a + ReplaceColonSpace(b)
  {
    if a == "" {
      assert a + b == b;
    } else {
      assert (a + b)[1..] == a[1..] + b;
      ReplaceColonSpaceAfter(a[1..], b);
    }
  }

  /** What becomes of the first colon, in every mode; then of the rest. */
  lemma FirstColon(a: string, b: string, colon: ColonMode)
    requires ':' !in a
    ensures ReplaceColons(a + ":" + b, colon) ==
      match colon
      case Smart => if b != "" && b[0] == ' ' then a + " - " + ReplaceColons(b[1..], Smart) else a + "-" + ReplaceColons(b, Smart)
      case Delete => a + ReplaceColons(b, Delete)
      case Dash => a + "-" + ReplaceColons(b, Dash)
      case SpaceDash => a + " -" + ReplaceColons(b, SpaceDash)
      case SpaceDashSpace => a + " - " + ReplaceColons(b, SpaceDashSpace)
  {
    hide ReplaceChar, ReplaceColonSpace;
    var dash := match colon case Smart => "-" case Delete => "" case Dash => "-" case SpaceDash => " -"
              case SpaceDashSpace => " - ";
    if colon == Smart {
      assert a + ":" + b == a + (":" + b);
      ReplaceColonSpaceAfter(a, ":" + b);
      SmartColon(b);
      if b != "" && b[0] == ' ' {
        ReplaceAround(a, " - ", ReplaceColonSpace(b[1..]), dash);
      } else {
        ReplaceAround(a, ":", ReplaceColonSpace(b), dash);
      }
    } else {
      ReplaceAround(a, ":", b, dash);
    }
  }

  lemma SmartColon(b: string)
    ensures ReplaceColonSpace(":" + b) ==
      if b != "" && b[0] == ' ' then " - " + ReplaceColonSpace(b[1..]) else ":" + ReplaceColonSpace(b)
  {
    assert (":" + b)[1..] == b;
    assert b != "" ==> (":" + b)[2..] == b[1..];
  }

  lemma ReplaceAround(a: string, between: string, b: string, dash: string)
    requires ':' !in a && (between == ":" || ':' !in between)
    ensures ReplaceChar(a + between + b, ':', dash) == a + (if between == ":" then dash else between) + ReplaceChar(b, ':', dash)
    ensures a + between + b == a + (between + b)
  {
    hide ReplaceChar;
    ReplaceCharConcat(a + between, b, ':', dash);
    ReplaceCharConcat(a, between, ':', dash);
    ReplaceCharIdentity(a, ':', dash);
    if between == ":" { ReplaceOne(':', dash); } else { ReplaceCharIdentity(between, ':', dash); }
  }

  lemma ReplaceOne(c: char, with: string)
    ensures ReplaceChar([c], c, with) == with
  {
    assert [c][1..] == "";
  }

  /** The characters that are taken out are these eight; every other stays where it is. */
  lemma IllegalGo(a: string, c: char, b: string)
    ensures RemoveIllegal(a + [c] + b) ==
      RemoveIllegal(a) + (if c in {'\\', '/', '*', '?', '\"', '<', '>', '|'} then "" else [c]) + RemoveIllegal(b)
  {
    hide RemoveIllegal;
    RemoveIllegalConcat(a + [c], b);
    RemoveIllegalConcat(a, [c]);
    RemoveIllegalOne(c);
  }

  lemma RemoveIllegalOne(c: char)
    ensures RemoveIllegal([c]) == if c in {'\\', '/', '*', '?', '\"', '<', '>', '|'} then "" else [c]
  {
    assert [c][1..] == "";
  }

  lemma {:induction false} RemoveIllegalConcat(a: string, b: string)
    ensures RemoveIllegal(a + b) == RemoveIllegal(a) + RemoveIllegal(b)
  {
    hide IsIllegal;
    if a == "" {
      assert a + b == b;
    } else {
      assert (a + b)[1..] == a[1..] + b;
      RemoveIllegalConcat(a[1..], b);
    }
  }

  /** A run of white space of any kind and length becomes one space. */
  lemma {:induction false} RunBecomesSpace(a: string, run: string, b: string)
    requires forall i :: 0 <= i < |a| ==> !IsSpace(a[i])
    requires run != "" && forall i :: 0 <= i < |run| ==> IsSpace(run[i])
    requires b != "" ==> !IsSpace(b[0])
    ensures Collapse(a + run + b) == a + " " + Collapse(b)
  {
    hide IsSpace;
    var s := a + run + b;
    if a == "" {
      assert s[1..] == run[1..] + b && s[0] == run[0];
      RunIsDropped(run[1..], b);
    } else {
      assert s[1..] == a[1..] + run + b && s[0] == a[0];
      RunBecomesSpace(a[1..], run, b);
    }
  }

  lemma {:induction false} RunIsDropped(run: string, b: string)
    requires forall i :: 0 <= i < |run| ==> IsSpace(run[i])
    requires b != "" ==> !IsSpace(b[0])
    ensures Collapse(run + b, true) == Collapse(b)
  {
    hide IsSpace;
    if run == "" {
      assert run + b == b;
    } else {
      assert (run + b)[1..] == run[1..] + b;
      RunIsDropped(run[1..], b);
    }
  }

  lemma SanitizeIdempotent(s: string, colon: ColonMode, again: ColonMode)
    ensures Sanitize(Sanitize(s, colon), again) == Sanitize(s, colon)
  {
    SanitizeIsClean(s, colon);
    SanitizeOfClean(Sanitize(s, colon), again);
  }

  // ----------------------------------------------------------------- templates

  datatype Token =
    | MovieTitle | ReleaseYear | SeriesTitle | Season00 | Season | Episode00
    | EpisodeTitle | AirDate | QualityFull | Title | Id

  /** One text for every token. */
  datatype Values = Values(
    movieTitle: string, releaseYear: string, seriesTitle: string, season00: string, season: string,
    episode00: string, episodeTitle: string, airDate: string, qualityFull: string, title: string, id: string)
  {
    function Get(t: Token): string {
      match t
      case MovieTitle => movieTitle
      case ReleaseYear => releaseYear
      case SeriesTitle => seriesTitle
      case Season00 => season00
      case Season => season
      case Episode00 => episode00
      case EpisodeTitle => episodeTitle
      case AirDate => airDate
      case QualityFull => qualityFull
      case Title => title
      case Id => id
    }
  }

  function Braced(t: Token): (s: string)
    ensures |s| >= 2 && '/' !in s
  {
    match t
    case MovieTitle => "{Movie Title}"
    case ReleaseYear => "{Release Year}"
    case SeriesTitle => "{Series Title}"
    case Season00 => "{season:00}"
    case Season => "{season}"
    case Episode00 => "{episode:00}"
    case EpisodeTitle => "{Episode Title}"
    case AirDate => "{Air-Date}"
    case QualityFull => "{Quality Full}"
    case Title => "{Title}"
    case Id => "{Id}"
  }

  const TOKENS: seq<Token> :=
    [MovieTitle, ReleaseYear, SeriesTitle, Season00, Season, Episode00,
     EpisodeTitle, AirDate, QualityFull, Title, Id]

  /** The token whose braced name `text` starts with, trying `tokens` in order. */
  function TokenAt(text: string, tokens: seq<Token>): (r: Option<Token>)
    ensures r.Some? ==> Braced(r.value) <= text
  {
    if tokens == [] then None
    else if Braced(tokens[0]) <= text then Some(tokens[0])
    else TokenAt(text, tokens[1..])
  }

  /** `_TOKEN.sub(values)`: one pass from the left. */
  function Expand(text: string, values: Values): string
  {
    if text == "" then ""
    else match TokenAt(text, TOKENS)
      case Some(t) => values.Get(t) + Expand(text[|Braced(t)|..], values)
      case None => [text[0]] + Expand(text[1..], values)
  }

  /** `_TOKEN.findall(text)`, as a set. */
  function TokensIn(text: string): set<Token> {
    if text == "" then {}
    else match TokenAt(text, TOKENS)
      case Some(t) => {t} + TokensIn(text[|Braced(t)|..])
      case None => TokensIn(text[1..])
  }

  /** Where the first `open` or `close` after the start of `text` is. */
  function NextBracket(text: string, open: char, close: char, from: nat): (i: nat)
    requires from <= |text|
    ensures from <= i <= |text|
    decreases |text| - from
  {
    if from == |text| || text[from] == open || text[from] == close then from
    else NextBracket(text, open, close, from + 1)
  }

  /** The length of the `(…)` or `[…]` block `text` starts with, or 0: a block holds no
      bracket of its own kind. */
  function BlockLength(text: string): (n: nat)
    ensures n <= |text|
  {
    if text == "" || (text[0] != '(' && text[0] != '[') then 0
    else
      var close := if text[0] == '(' then ')' else ']';
      var i := NextBracket(text, text[0], close, 1);
      if i < |text| && text[i] == close then i + 1 else 0
  }

  /** `_BLOCK.sub(drop_empty)`: a block with a token that has no value goes. */
  function DropEmptyBlocks(text: string, empty: set<Token>): string
    decreases |text|
  {
    if text == "" then ""
    else
      var n := BlockLength(text);
      if n == 0 then [text[0]] + DropEmptyBlocks(text[1..], empty)
      else (if TokensIn(text[..n]) !! empty then text[..n] else "") + DropEmptyBlocks(text[n..], empty)
  }

  function EmptyTokens(values: Values): set<Token>
  {
    set t: Token | values.Get(t) == ""
  }

  function Render(template: string, values: Values): string
  {
    Strip(Collapse(Expand(DropEmptyBlocks(template, EmptyTokens(values)), values)), SPACE_DOT)
  }

  // ------------------------------------------- a title is text, never a template

  datatype Segment = Literal(c: char) | Hole(t: Token)

  /** What a template is made of; no value takes part in deciding it. */
  function Segments(text: string): seq<Segment> {
    if text == "" then []
    else match TokenAt(text, TOKENS)
      case Some(t) => [Hole(t)] + Segments(text[|Braced(t)|..])
      case None => [Literal(text[0])] + Segments(text[1..])
  }

  function Fill(segments: seq<Segment>, values: Values): string
  {
    if segments == [] then ""
    else (match segments[0] case Literal(c) => [c] case Hole(t) => values.Get(t)) + Fill(segments[1..], values)
  }

  /** Expansion fills the holes of a template that was read before any value was looked at,
      so a title that spells `{Id}` stays that text. */
  lemma {:induction false} ExpandIsFill(text: string, values: Values)
    ensures Expand(text, values) == Fill(Segments(text), values)
  {
    if text != "" {
      match TokenAt(text, TOKENS)
      case Some(t) =>
        ExpandIsFill(text[|Braced(t)|..], values);
        assert Segments(text)[1..] == Segments(text[|Braced(t)|..]);
      case None =>
        ExpandIsFill(text[1..], values);
        assert Segments(text)[1..] == Segments(text[1..]);
    }
  }

  lemma {:induction false} ExpandSlash(text: string, values: Values)
    requires forall t: Token :: '/' !in values.Get(t)
    ensures '/' in Expand(text, values) <==> '/' in text
  {
    if text != "" {
      match TokenAt(text, TOKENS)
      case Some(t) =>
        ExpandSlash(text[|Braced(t)|..], values);
        assert text == Braced(t) + text[|Braced(t)|..];
      case None =>
        ExpandSlash(text[1..], values);
        assert text == [text[0]] + text[1..];
    }
  }

  lemma {:induction false} DropEmptyBlocksSlash(text: string, empty: set<Token>)
    requires '/' !in text
    ensures '/' !in DropEmptyBlocks(text, empty)
    decreases |text|
  {
    if text != "" {
      var n := BlockLength(text);
      DropEmptyBlocksSlash(text[if n == 0 then 1 else n..], empty);
    }
  }

  /** Strip only takes spaces and dots from the ends. */
  lemma StripKeeps(s: string, c: char)
    requires c !in SPACE_DOT
    ensures c in Strip(s, SPACE_DOT) <==> c in s
  {
    hide *;
    var i, j := StripIsSlice(s, SPACE_DOT);
    assert s == s[..i] + s[i..j] + s[j..];
  }

  lemma CollapseSlash(s: string)
    ensures '/' in Collapse(s) <==> '/' in s
  {
    hide Collapse;
    CollapseCollapses(s, false);
    assert '/' in Collapse(s) ==> exists i :: 0 <= i < |Collapse(s)| && Collapse(s)[i] == '/';
  }

  /** A rendered name holds a separator exactly when the part of the template that is kept
      does: sanitized values never bring one in. */
  lemma RenderSlash(template: string, values: Values)
    requires forall t: Token :: '/' !in values.Get(t)
    ensures '/' in Render(template, values) <==> '/' in DropEmptyBlocks(template, EmptyTokens(values))
  {
    hide DropEmptyBlocks, EmptyTokens, Expand, Collapse, Strip;
    var kept := DropEmptyBlocks(template, EmptyTokens(values));
    ExpandSlash(kept, values);
    CollapseSlash(Expand(kept, values));
    StripKeeps(Collapse(Expand(kept, values)), '/');
  }

  predicate NoSlash(s: string) {
    '/' !in s
  }

  // ------------------------------------------------------------- the byte limit

  datatype Result<T> = Ok(value: T) | EmptyName

  function SanitizeAll(values: Values, colon: ColonMode): Values {
    Values(Sanitize(values.movieTitle, colon), Sanitize(values.releaseYear, colon),
           Sanitize(values.seriesTitle, colon), Sanitize(values.season00, colon), Sanitize(values.season, colon),
           Sanitize(values.episode00, colon), Sanitize(values.episodeTitle, colon),
           Sanitize(values.airDate, colon), Sanitize(values.qualityFull, colon), Sanitize(values.title, colon),
           Sanitize(values.id, colon))
  }

  /** Sanitizing a cut title only takes spaces and dots off its new end. */
  lemma SanitizeCutTitle(title: string, kept: string, colon: ColonMode)
    requires Clean(title) && Trimmed(title) && kept <= title
    ensures var next := Sanitize(kept, colon);
      next <= title && ByteLen(next) <= ByteLen(kept) && Clean(next) && Trimmed(next)
  {
    hide *;
    assert kept == title[0..|kept|];
    CleanSlice(title, 0, |kept|);
    SanitizeOfClean(kept, colon);
    SanitizeIsClean(kept, colon);
    StripPrefix(title, kept);
  }

  lemma StripPrefix(full: string, kept: string)
    requires Trimmed(full) && kept <= full
    ensures var r := Strip(kept, SPACE_DOT); r <= full && r <= kept && ByteLen(r) <= ByteLen(kept) && Trimmed(r)
  {
    var i, j := StripIsSlice(kept, SPACE_DOT);
    assert kept != "" ==> kept[0] == full[0];
    ByteLenSlice(kept, i, j);
  }

  /** A name cut at a byte limit starts where the full name starts. */
  lemma CutName(full: string, limit: nat)
    requires Trimmed(full)
    ensures var name := Strip(Cut(full, limit), SPACE_DOT);
      name <= full && ByteLen(name) <= limit && Trimmed(name)
  {
    StripPrefix(full, Cut(full, limit));
  }

  lemma RenderIsTrimmed(template: string, values: Values)
    ensures Trimmed(Render(template, values))
  {
  }

  /** One round of the loop: the longest start of the title that is `overflow` bytes shorter. */
  function NextTitle(title: string, overflow: nat, colon: ColonMode): string {
    Sanitize(Cut(title, if ByteLen(title) > overflow then ByteLen(title) - overflow else 0), colon)
  }

  lemma NextTitleShrinks(title: string, overflow: nat, colon: ColonMode)
    requires Clean(title) && Trimmed(title) && title != "" && overflow > 0
    ensures var next := NextTitle(title, overflow, colon);
      next <= title && ByteLen(next) < ByteLen(title) && Clean(next) && Trimmed(next)
  {
    hide Clean, Trimmed, Sanitize;
    ByteLenAtLeastLength(title);
    SanitizeCutTitle(title, Cut(title, if ByteLen(title) > overflow then ByteLen(title) - overflow else 0), colon);
  }

  /** Each round gives up what overflows, less than one code point more, and the spaces and
      dots that are then at the end. */
  lemma RoundIsTight(title: string, overflow: nat, colon: ColonMode)
    requires Clean(title) && Trimmed(title) && 0 < overflow < ByteLen(title)
    ensures var kept, next := Cut(title, ByteLen(title) - overflow), NextTitle(title, overflow, colon);
      && ByteLen(title) - overflow - 4 < ByteLen(kept) <= ByteLen(title) - overflow
      && next <= kept && forall i :: |next| <= i < |kept| ==> kept[i] in SPACE_DOT
  {
    hide Sanitize, Strip, Clean, Trimmed, Cut, ByteLen, NextTitle;
    var kept := Cut(title, ByteLen(title) - overflow);
    CutIsTight(title, ByteLen(title) - overflow);
    NextTitleIs(title, overflow, colon, ByteLen(title) - overflow);
    assert kept == title[0..|kept|];
    CleanSlice(title, 0, |kept|);
    SanitizeOfClean(kept, colon);
    StripOfPrefix(title, kept);
  }

  lemma CutIsTight(s: string, limit: nat)
    requires limit < ByteLen(s)
    ensures limit - 4 < ByteLen(Cut(s, limit)) <= limit
  {
    var kept := Cut(s, limit);
    var more := s[..|kept| + 1];
    assert more[..|more| - 1] == kept;
  }

  lemma StripOfPrefix(full: string, kept: string)
    requires Trimmed(full) && kept <= full
    ensures var r := Strip(kept, SPACE_DOT); r <= kept && forall i :: |r| <= i < |kept| ==> kept[i] in SPACE_DOT
  {
    var i, j := StripIsSlice(kept, SPACE_DOT);
    assert kept != "" ==> kept[0] == full[0];
  }

  /** The episode title the name ends up with; the measure is the bytes left in it. */
  function ShortTitle(template: string, clean: Values, limit: nat, colon: ColonMode): (r: string)
    requires Clean(clean.episodeTitle) && Trimmed(clean.episodeTitle)
    ensures r <= clean.episodeTitle && Clean(r) && Trimmed(r)
    decreases ByteLen(clean.episodeTitle)
  {
    var overflow := ByteLen(Render(template, clean)) - limit;
    if overflow <= 0 || clean.episodeTitle == "" then clean.episodeTitle
    else
      NextTitleShrinks(clean.episodeTitle, overflow, colon);
      ShortTitle(template, clean.(episodeTitle := NextTitle(clean.episodeTitle, overflow, colon)), limit, colon)
  }

  /** The name `_name` comes to, which may be empty. */
  function NameOf(template: string, clean: Values, limit: nat, colon: ColonMode): string
    requires Clean(clean.episodeTitle) && Trimmed(clean.episodeTitle)
  {
    var rendered := Render(template, clean.(episodeTitle := ShortTitle(template, clean, limit, colon)));
    if ByteLen(rendered) <= limit then rendered else Strip(Cut(rendered, limit), SPACE_DOT)
  }

  lemma {:induction false} ShortTitleFits(template: string, clean: Values, limit: nat, colon: ColonMode)
    requires Clean(clean.episodeTitle) && Trimmed(clean.episodeTitle)
    ensures var title := ShortTitle(template, clean, limit, colon);
      title == "" || ByteLen(Render(template, clean.(episodeTitle := title))) <= limit
    decreases ByteLen(clean.episodeTitle)
  {
    hide Render, Clean, Trimmed, ByteLen, NextTitle;
    var overflow := ByteLen(Render(template, clean)) - limit;
    assert clean.(episodeTitle := clean.episodeTitle) == clean;
    if overflow > 0 && clean.episodeTitle != "" {
      NextTitleShrinks(clean.episodeTitle, overflow, colon);
      var next := clean.(episodeTitle := NextTitle(clean.episodeTitle, overflow, colon));
      ShortTitleFits(template, next, limit, colon);
      var title := ShortTitle(template, next, limit, colon);
      assert next.(episodeTitle := title) == clean.(episodeTitle := title);
    }
  }

  /** The name is the template rendered with the sanitized values, where only the episode
      title may have lost its end, and only if the full name did not fit; the name itself is
      cut only once the whole title is gone. */
  lemma TitleGivesWayFirst(template: string, clean: Values, limit: nat, colon: ColonMode)
    requires Clean(clean.episodeTitle) && Trimmed(clean.episodeTitle)
    ensures var title, name := ShortTitle(template, clean, limit, colon), NameOf(template, clean, limit, colon);
      var rendered := Render(template, clean.(episodeTitle := title));
      && title <= clean.episodeTitle && ByteLen(name) <= limit && name <= rendered
      && (ByteLen(Render(template, clean)) <= limit ==> title == clean.episodeTitle && name == Render(template, clean))
      && (name != rendered ==> title == "")
      && Trimmed(name)
  {
    hide Render, Clean, Trimmed, ByteLen, NextTitle, Strip, Cut;
    ShortTitleFits(template, clean, limit, colon);
    var title := ShortTitle(template, clean, limit, colon);
    assert clean.(episodeTitle := clean.episodeTitle) == clean;
    var rendered := Render(template, clean.(episodeTitle := title));
    RenderIsTrimmed(template, clean.(episodeTitle := title));
    CutName(rendered, limit);
  }

  lemma AllClean(values: Values, colon: ColonMode)
    ensures var clean := SanitizeAll(values, colon);
      && (forall t: Token :: Clean(clean.Get(t))) && Clean(clean.episodeTitle) && Trimmed(clean.episodeTitle)
  {
    hide Sanitize, Clean, Trimmed;
    var clean := SanitizeAll(values, colon);
    forall t: Token ensures Clean(clean.Get(t)) && Trimmed(clean.Get(t)) {
      SanitizeIsClean(values.Get(t), colon);
      assert clean.Get(t) == Sanitize(values.Get(t), colon);
    }
    assert clean.Get(EpisodeTitle) == clean.episodeTitle;
  }

  /** The name of a template for the values as they come. */
  function NameFor(template: string, values: Values, limit: nat, colon: ColonMode): string {
    AllClean(values, colon);
    NameOf(template, SanitizeAll(values, colon), limit, colon)
  }

  /** Every name fits, has nothing to strip, and holds no separator its template did not. */
  lemma NamesAreGood(template: string, values: Values, limit: nat, colon: ColonMode)
    ensures var name := NameFor(template, values, limit, colon);
      ByteLen(name) <= limit && Trimmed(name) && (NoSlash(template) ==> NoSlash(name))
  {
    hide Render, Clean, Trimmed, ByteLen, NextTitle, Strip, Cut, NameOf, ShortTitle, SanitizeAll;
    AllClean(values, colon);
    var clean := SanitizeAll(values, colon);
    TitleGivesWayFirst(template, clean, limit, colon);
    var current := clean.(episodeTitle := ShortTitle(template, clean, limit, colon));
    forall t: Token ensures Clean(current.Get(t)) {
      assert current.Get(t) == if t == EpisodeTitle then current.episodeTitle else clean.Get(t);
    }
    if NoSlash(template) {
      NoSlashInName(template, current, NameOf(template, clean, limit, colon));
    }
  }

  /** `_name`. The loop ends because every round leaves fewer bytes in the episode title. */
  method ShortName(template: string, values: Values, colon: ColonMode, limit: nat) returns (r: Result<string>)
    ensures r == var name := NameFor(template, values, limit, colon); if name == "" then EmptyName else Ok(name)
    ensures r.Ok? ==> r.value != "" && ByteLen(r.value) <= limit && Trimmed(r.value)
    ensures r.Ok? && NoSlash(template) ==> NoSlash(r.value)
  {
    NamesAreGood(template, values, limit, colon);
    hide Render, Sanitize, Strip, Clean, Trimmed, ByteLen, Cut, NextTitle, SanitizeAll;
    AllClean(values, colon);
    ghost var clean := SanitizeAll(values, colon);
    var current := SanitizeAll(values, colon);
    assert clean.(episodeTitle := clean.episodeTitle) == clean;
    var name := Render(template, current);
    var overflow := ByteLen(name) - limit;
    while overflow > 0 && current.episodeTitle != ""
      invariant current == clean.(episodeTitle := current.episodeTitle)
      invariant Clean(current.episodeTitle) && Trimmed(current.episodeTitle)
      invariant ShortTitle(template, current, limit, colon) == ShortTitle(template, clean, limit, colon)
      invariant name == Render(template, current)
      invariant overflow == ByteLen(name) - limit
      decreases ByteLen(current.episodeTitle)
    {
      var title := current.episodeTitle;
      NextTitleShrinks(title, overflow, colon);
      var keep := if ByteLen(title) - overflow > 0 then ByteLen(title) - overflow else 0;
      var kept := Cut(title, keep);
      NextTitleIs(title, overflow, colon, keep);
      current := current.(episodeTitle := Sanitize(kept, colon));
      name := Render(template, current);
      overflow := ByteLen(name) - limit;
    }
    assert current.episodeTitle == ShortTitle(template, clean, limit, colon);
    if overflow > 0 {
      name := Strip(Cut(name, limit), SPACE_DOT);
    }
    if name == "" {
      return EmptyName;
    }
    return Ok(name);
  }

  lemma NextTitleIs(title: string, overflow: nat, colon: ColonMode, keep: nat)
    requires keep == if ByteLen(title) - overflow > 0 then ByteLen(title) - overflow else 0
    ensures NextTitle(title, overflow, colon) == Sanitize(Cut(title, keep), colon)
  {
    hide Sanitize, Cut, ByteLen;
  }

  lemma NoSlashInName(template: string, values: Values, name: string)
    requires forall t: Token :: Clean(values.Get(t))
    requires '/' !in template
    requires name <= Render(template, values)
    ensures '/' !in name
  {
    forall t: Token ensures '/' !in values.Get(t) {
    }
    DropEmptyBlocksSlash(template, EmptyTokens(values));
    RenderSlash(template, values);
  }

  // ----------------------------------------------------------------- sidecars

  /** `sidecar_name`. */
  function SidecarName(videoName: string, lang: string, ext: string): string {
    Stem(videoName) + "." + Sanitize(lang, Smart) + ext
  }

  /** A clean language goes between the video's base and the sidecar's own extension. */
  lemma SidecarNameIs(base: string, videoExt: string, lang: string, ext: string)
    requires base != "" && videoExt != "" && '.' !in videoExt && Clean(lang) && Trimmed(lang)
    ensures SidecarName(base + "." + videoExt, lang, ext) == base + "." + lang + ext
  {
    hide Clean, Trimmed, Sanitize;
    ExtensionIsSuffix(base, "." + videoExt);
    assert base + "." + videoExt == base + ("." + videoExt);
    SanitizeOfClean(lang, Smart);
  }
}
