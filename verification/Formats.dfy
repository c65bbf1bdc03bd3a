/** The format selector (backend/app/ytdlp/formats.py) and what yt-dlp does with it. */
module Formats {
  import opened Wrappers
  import opened Text

  datatype Quality = Q144 | Q240 | Q360 | Q480 | Q720 | Q1080 | Q1440 | Q2160 | Q4k | Best
  datatype Container = Mkv | Mp4
  datatype VideoCodec = AnyCodec | H264 | Vp9 | Av1

  /** The arguments of `build_selector`; `preferGpu` is `prefer_gpu_decode`. */
  datatype Request = Request(quality: Quality, container: Container, preferGpu: bool, codec: VideoCodec,
                             language: Option<string>, allowHdr: bool)

  /** A language tag is letters, digits and `-` (backend/app/ytdlp/schemas.py, line 16). */
  predicate IsTag(s: string) {
    forall i :: 0 <= i < |s| ==> '0' <= s[i] <= '9' || 'A' <= s[i] <= 'Z' || 'a' <= s[i] <= 'z' || s[i] == '-'
  }

  predicate ValidRequest(q: Request) {
    q.language.Some? ==> IsTag(q.language.value)
  }

  // --- The text, as the source builds it ------------------------------------------------

  /** `_HEIGHTS`. */
  function Ceiling(quality: Quality): Option<nat> {
    match quality
    case Q144 => Some(144)
    case Q240 => Some(240)
    case Q360 => Some(360)
    case Q480 => Some(480)
    case Q720 => Some(720)
    case Q1080 => Some(1080)
    case Q1440 => Some(1440)
    case Q2160 => Some(2160)
    case Q4k => Some(2160)
    case Best => None
  }

  function HeightText(quality: Quality): string {
    match Ceiling(quality)
    case None => ""
    case Some(h) => "[height<=" + Decimal(h) + "]"
  }

  /** The codec prefixes asked for, best first. */
  function Codecs(q: Request): seq<string> {
    match q.codec
    case H264 => ["avc1"]
    case Vp9 => ["vp9"]
    case Av1 => ["av01"]
    case AnyCodec => if q.preferGpu then ["avc1", "vp9"] else []
  }

  function SdrText(q: Request): string {
    if q.allowHdr then "" else "[dynamic_range=SDR]"
  }

  function LanguageText(q: Request): string {
    if q.language.None? then "" else "[language=" + q.language.value + "]"
  }

  function CodecTexts(codecs: seq<string>): (r: seq<string>)
    ensures |r| == |codecs|
  {
    seq(|codecs|, i requires 0 <= i < |codecs| => "[vcodec^=" + codecs[i] + "]")
  }

  function VideoTerms(q: Request): seq<string> {
    if Codecs(q) != [] then CodecTexts(Codecs(q))
    else if SdrText(q) != "" || LanguageText(q) != "" then [""]
    else []
  }

  function PreferredText(q: Request, term: string): string {
    "bv*" + HeightText(q.quality) + term + SdrText(q)
    + "+ba" + (if q.container == Mp4 then "[ext=m4a]" else "") + LanguageText(q)
  }

  function PreferredTexts(q: Request): (r: seq<string>)
    ensures |r| == |VideoTerms(q)|
  {
    var terms := VideoTerms(q);
    seq(|terms|, i requires 0 <= i < |terms| => PreferredText(q, terms[i]))
  }

  /** `_script_selector`. */
  function ScriptSelector(hf: string, container: Container): string {
    var plain := ("bv*" + hf + "+ba") + "/" + ("b" + hf);
    if container == Mp4 then
      ("bv*" + hf + "[vcodec^=avc1]" + "+ba" + "[ext=m4a]") + "/"
      + (("bv*" + hf + "[ext=mp4]" + "+ba" + "[ext=m4a]") + "/" + plain)
    else plain
  }

  /** `build_selector`. */
  function BuildSelector(q: Request): string {
    Join(PreferredTexts(q) + [ScriptSelector(HeightText(q.quality), q.container)], '/')
  }

  // --- The part of yt-dlp's selector language it uses -----------------------------------

  datatype Filter =
    | Height(max: nat) | Codec(prefix: string) | Range(value: string) | Ext(value: string) | Language(value: string)

  /** `bv*…+ba…` or `b…`. */
  datatype Alternative = Merge(video: seq<Filter>, audio: seq<Filter>) | Whole(filters: seq<Filter>)

  type Selector = seq<Alternative>

  function ParseFilter(text: string): Option<Filter> {
    if "height<=" <= text then
      if |text| > 8 && AllDigits(text[8..]) then Some(Height(DigitsValue(text[8..]))) else None
    else if "vcodec^=" <= text then Some(Codec(text[8..]))
    else if "dynamic_range=" <= text then Some(Range(text[14..]))
    else if "ext=" <= text then Some(Ext(text[4..]))
    else if "language=" <= text then Some(Language(text[9..]))
    else None
  }

  /** `[…]` any number of times; `text` has been split at `]`, so the last piece is empty. */
  function ParseFilters(pieces: seq<string>): Option<seq<Filter>>
    requires pieces != []
  {
    if |pieces| == 1 then
      if pieces[0] == "" then Some([]) else None
    else if "[" <= pieces[0] then
      match (ParseFilter(pieces[0][1..]), ParseFilters(pieces[1..]))
      case (Some(f), Some(fs)) => Some([f] + fs)
      case _ => None
    else None
  }

  function ParseAtom(base: string, text: string): Option<seq<Filter>> {
    if base <= text then ParseFilters(Split(text[|base|..], ']')) else None
  }

  function ParseAlternative(text: string): Option<Alternative> {
    var atoms := Split(text, '+');
    if |atoms| == 2 then
      match (ParseAtom("bv*", atoms[0]), ParseAtom("ba", atoms[1]))
      case (Some(v), Some(a)) => Some(Merge(v, a))
      case _ => None
    else if |atoms| == 1 then
      match ParseAtom("b", atoms[0])
      case Some(fs) => Some(Whole(fs))
      case _ => None
    else None
  }

  function ParseAlternatives(texts: seq<string>): Option<Selector> {
    if texts == [] then Some([])
    else
      match (ParseAlternative(texts[0]), ParseAlternatives(texts[1..]))
      case (Some(a), Some(rest)) => Some([a] + rest)
      case _ => None
  }

  /** What the text of a selector says. */
  function Parse(text: string): Option<Selector> {
    ParseAlternatives(Split(text, '/'))
  }

  // --- Printing back, to show that the text says what is meant --------------------------

  function Tag(f: Filter): string
    requires !f.Height?
  {
    match f
    case Codec(_) => "vcodec^="
    case Range(_) => "dynamic_range="
    case Ext(_) => "ext="
    case Language(_) => "language="
  }

  function Argument(f: Filter): string
    requires !f.Height?
  {
    match f
    case Codec(prefix) => prefix
    case Range(value) => value
    case Ext(value) => value
    case Language(value) => value
  }

  function FilterText(f: Filter): string {
    if f.Height? then "height<=" + Decimal(f.max) else Tag(f) + Argument(f)
  }

  function FiltersText(fs: seq<Filter>): string {
    if fs == [] then "" else "[" + FilterText(fs[0]) + "]" + FiltersText(fs[1..])
  }

  function AlternativeText(a: Alternative): string {
    match a
    case Merge(video, audio) => "bv*" + FiltersText(video) + "+ba" + FiltersText(audio)
    case Whole(filters) => "b" + FiltersText(filters)
  }

  /** Text with none of the language's own signs. */
  predicate Plain(s: string) {
    '/' !in s && '+' !in s && ']' !in s
  }

  predicate PlainFilter(f: Filter) {
    f.Height? || Plain(Argument(f))
  }

  predicate PlainFilters(fs: seq<Filter>) {
    forall i :: 0 <= i < |fs| ==> PlainFilter(fs[i])
  }

  predicate PlainAlternative(a: Alternative) {
    match a
    case Merge(video, audio) => PlainFilters(video) && PlainFilters(audio)
    case Whole(filters) => PlainFilters(filters)
  }

  lemma Tagged(tag: string, value: string)
    requires tag != ""
    ensures tag <= tag + value && (tag + value)[|tag|..] == value && (tag + value)[0] == tag[0]
    ensures Plain(tag) && Plain(value) ==> Plain(tag + value)
  {
  }

  /** Tags that start differently are told apart by their first letter. */
  lemma OtherTag(tag: string, text: string)
    requires tag != "" && text != "" && tag[0] != text[0]
    ensures !(tag <= text)
  {
  }

  lemma HeightRoundTrip(max: nat)
    ensures Plain(FilterText(Height(max))) && ParseFilter(FilterText(Height(max))) == Some(Height(max))
  {
    var text := FilterText(Height(max));
    assert Plain(Decimal(max));
    Tagged("height<=", Decimal(max));
    DecimalRoundTrip(max);
    assert text[8..] == Decimal(max);
  }

  lemma FilterRoundTrip(f: Filter)
    requires PlainFilter(f)
    ensures Plain(FilterText(f)) && ParseFilter(FilterText(f)) == Some(f)
  {
    hide Plain, Decimal, DigitsValue, AllDigits;
    if f.Height? {
      HeightRoundTrip(f.max);
    } else {
      PlainTags();
      var text := FilterText(f);
      Tagged(Tag(f), Argument(f));
      assert text == Tag(f) + Argument(f);
      OtherTag("height<=", text);
      if !f.Codec? { OtherTag("vcodec^=", text); }
      if !f.Range? { OtherTag("dynamic_range=", text); }
      if !f.Ext? { OtherTag("ext=", text); }
    }
  }

  lemma PlainTags()
    ensures Plain("vcodec^=") && Plain("dynamic_range=") && Plain("ext=") && Plain("language=")
  {
  }

  lemma {:induction false} FiltersRoundTrip(fs: seq<Filter>)
    requires PlainFilters(fs)
    ensures '/' !in FiltersText(fs) && '+' !in FiltersText(fs)
    ensures ParseFilters(Split(FiltersText(fs), ']')) == Some(fs)
  {
    if fs == [] {
      SplitOne("", ']');
    } else {
      hide ParseFilter, FilterText, PlainFilter;
      var head, tail := "[" + FilterText(fs[0]), FiltersText(fs[1..]);
      FilterRoundTrip(fs[0]);
      FiltersRoundTrip(fs[1..]);
      SplitCons(head, tail, ']');
      assert FiltersText(fs) == head + "]" + tail;
      assert head[1..] == FilterText(fs[0]);
      assert [fs[0]] + fs[1..] == fs;
    }
  }

  lemma AtomRoundTrip(base: string, fs: seq<Filter>)
    requires PlainFilters(fs)
    ensures ParseAtom(base, base + FiltersText(fs)) == Some(fs)
  {
    FiltersRoundTrip(fs);
    assert (base + FiltersText(fs))[|base|..] == FiltersText(fs);
  }

  lemma AlternativeRoundTrip(a: Alternative)
    requires PlainAlternative(a)
    ensures '/' !in AlternativeText(a) && ParseAlternative(AlternativeText(a)) == Some(a)
  {
    hide ParseAtom, FiltersText, PlainFilters, ParseFilters;
    match a
    case Merge(video, audio) =>
      FiltersRoundTrip(video);
      FiltersRoundTrip(audio);
      var v, au := "bv*" + FiltersText(video), "ba" + FiltersText(audio);
      assert AlternativeText(a) == v + "+" + au;
      SplitCons(v, au, '+');
      SplitOne(au, '+');
      AtomRoundTrip("bv*", video);
      AtomRoundTrip("ba", audio);
    case Whole(filters) =>
      FiltersRoundTrip(filters);
      SplitOne(AlternativeText(a), '+');
      AtomRoundTrip("b", filters);
  }

  // --- What the built text means --------------------------------------------------------

  function HeightFilters(quality: Quality): seq<Filter> {
    match Ceiling(quality)
    case None => []
    case Some(h) => [Height(h)]
  }

  function SdrFilters(q: Request): seq<Filter> {
    if q.allowHdr then [] else [Range("SDR")]
  }

  function AudioFilters(q: Request): seq<Filter> {
    (if q.container == Mp4 then [Ext("m4a")] else []) + if q.language.None? then [] else [Language(q.language.value)]
  }

  /** The alternatives put first: one for each codec asked for, or one for the other preferences. */
  function Preferred(q: Request): (r: Selector)
    ensures |r| == |VideoTerms(q)|
  {
    var codecs := Codecs(q);
    if codecs != [] then
      seq(|codecs|, i requires 0 <= i < |codecs| =>
        Merge(HeightFilters(q.quality) + [Codec(codecs[i])] + SdrFilters(q), AudioFilters(q)))
    else if !q.allowHdr || q.language.Some? then
      [Merge(HeightFilters(q.quality) + [] + SdrFilters(q), AudioFilters(q))]
    else []
  }

  /** The script's own alternatives. */
  function Script(q: Request): Selector {
    var h := HeightFilters(q.quality);
    (if q.container == Mp4 then [Merge(h + [Codec("avc1")], [Ext("m4a")]), Merge(h + [Ext("mp4")], [Ext("m4a")])] else [])
    + [Merge(h, []), Whole(h)]
  }

  lemma {:induction false} FiltersTextConcat(a: seq<Filter>, b: seq<Filter>)
    ensures FiltersText(a + b) == FiltersText(a) + FiltersText(b)
  {
    hide FilterText;
    if a == [] {
      assert a + b == b;
    } else {
      FiltersTextConcat(a[1..], b);
      assert (a + b)[1..] == a[1..] + b;
      Associate("[" + FilterText(a[0]) + "]", FiltersText(a[1..]), FiltersText(b));
    }
  }

  lemma Associate(a: string, b: string, c: string)
    ensures a + (b + c) == (a + b) + c
  {
  }

  lemma FiltersTextOne(f: Filter)
    ensures FiltersText([f]) == "[" + FilterText(f) + "]"
  {
    hide FilterText;
    assert [f][1..] == [];
  }

  lemma HeightFilterText(h: nat)
    ensures FiltersText([Height(h)]) == "[height<=" + Decimal(h) + "]"
  {
    hide Decimal;
    FiltersTextOne(Height(h));
    assert "[" + ("height<=" + Decimal(h)) == "[height<=" + Decimal(h);
  }

  lemma LanguageFilterText(language: string)
    ensures FiltersText([Language(language)]) == "[language=" + language + "]"
  {
    FiltersTextOne(Language(language));
    assert "[" + ("language=" + language) == "[language=" + language;
  }

  lemma ExtFilterText()
    ensures FiltersText([Ext("m4a")]) == "[ext=m4a]"
  {
    FiltersTextOne(Ext("m4a"));
  }

  lemma PlainTag(s: string)
    requires IsTag(s)
    ensures Plain(s)
  {
  }

  lemma HeightFiltersText(quality: Quality)
    ensures FiltersText(HeightFilters(quality)) == HeightText(quality) && PlainFilters(HeightFilters(quality))
  {
    hide Ceiling;
    if Ceiling(quality).Some? {
      HeightFilterText(Ceiling(quality).value);
    }
  }

  lemma SdrFiltersText(q: Request)
    ensures FiltersText(SdrFilters(q)) == SdrText(q) && PlainFilters(SdrFilters(q))
  {
    FiltersTextOne(Range("SDR"));
  }

  lemma AudioFiltersText(q: Request)
    requires ValidRequest(q)
    ensures FiltersText(AudioFilters(q)) == (if q.container == Mp4 then "[ext=m4a]" else "") + LanguageText(q)
    ensures PlainFilters(AudioFilters(q))
  {
    var ext: seq<Filter> := if q.container == Mp4 then [Ext("m4a")] else [];
    var language: seq<Filter> := if q.language.None? then [] else [Language(q.language.value)];
    FiltersTextConcat(ext, language);
    ExtFilterText();
    if q.language.Some? {
      LanguageFilterText(q.language.value);
      PlainTag(q.language.value);
    }
    hide FilterText, IsTag;
  }

  /** A preferred alternative is printed as the source prints it. */
  lemma PreferredTextIs(q: Request, term: seq<Filter>)
    requires ValidRequest(q) && PlainFilters(term)
    ensures var a := Merge(HeightFilters(q.quality) + term + SdrFilters(q), AudioFilters(q));
      PlainAlternative(a) && AlternativeText(a) == PreferredText(q, FiltersText(term))
  {
    hide FiltersText, HeightFilters, SdrFilters, AudioFilters, HeightText, SdrText, LanguageText, PlainFilter;
    HeightFiltersText(q.quality);
    SdrFiltersText(q);
    AudioFiltersText(q);
    FiltersTextConcat(HeightFilters(q.quality), term);
    FiltersTextConcat(HeightFilters(q.quality) + term, SdrFilters(q));
  }

  function AlternativeTexts(alternatives: Selector): (r: seq<string>)
    ensures |r| == |alternatives|
  {
    seq(|alternatives|, i requires 0 <= i < |alternatives| => AlternativeText(alternatives[i]))
  }

  lemma TextsNext(alternatives: Selector)
    requires alternatives != []
    ensures var texts := AlternativeTexts(alternatives);
      texts[0] == AlternativeText(alternatives[0]) && texts[1..] == AlternativeTexts(alternatives[1..])
  {
    hide AlternativeText;
  }

  lemma {:induction false} AlternativesRoundTrip(alternatives: Selector)
    requires forall i :: 0 <= i < |alternatives| ==> PlainAlternative(alternatives[i])
    ensures ParseAlternatives(AlternativeTexts(alternatives)) == Some(alternatives)
  {
    if alternatives != [] {
      hide ParseAlternative, AlternativeText, PlainAlternative;
      AlternativeRoundTrip(alternatives[0]);
      AlternativesRoundTrip(alternatives[1..]);
      TextsNext(alternatives);
      hide AlternativeTexts;
      assert [alternatives[0]] + alternatives[1..] == alternatives;
    }
  }

  lemma CodecFilterText(codec: string)
    ensures FiltersText([Codec(codec)]) == "[vcodec^=" + codec + "]"
  {
    FiltersTextOne(Codec(codec));
    assert "[" + ("vcodec^=" + codec) == "[vcodec^=" + codec;
  }

  lemma PlainCodecs(q: Request)
    ensures forall i :: 0 <= i < |Codecs(q)| ==> Plain(Codecs(q)[i])
  {
  }

  /** The preferred alternatives are printed as the source prints them, in its order. */
  lemma PreferredTextsAre(q: Request)
    requires ValidRequest(q)
    ensures AlternativeTexts(Preferred(q)) == PreferredTexts(q)
    ensures forall i :: 0 <= i < |Preferred(q)| ==> PlainAlternative(Preferred(q)[i])
  {
    hide FiltersText, PlainAlternative, PreferredText, AlternativeText;
    hide Codecs, HeightFilters, SdrFilters, AudioFilters, Plain;
    var codecs := Codecs(q);
    var preferred := Preferred(q);
    forall i | 0 <= i < |preferred|
      ensures PlainAlternative(preferred[i]) && AlternativeText(preferred[i]) == PreferredTexts(q)[i]
    {
      if codecs != [] {
        CodecFilterText(codecs[i]);
        PlainCodecs(q);
        PreferredTextIs(q, [Codec(codecs[i])]);
      } else {
        PreferredTextIs(q, []);
        NoFiltersText();
      }
    }
  }

  lemma NoFiltersText()
    ensures FiltersText([]) == ""
  {
  }

  /** So are the script's. */
  lemma ScriptTextsAre(q: Request)
    ensures Split(ScriptSelector(HeightText(q.quality), q.container), '/') == AlternativeTexts(Script(q))
    ensures forall i :: 0 <= i < |Script(q)| ==> PlainAlternative(Script(q)[i])
  {
    hide FiltersText, HeightFilters, HeightText, Plain, Split, PlainFilter;
    var hf, h := HeightText(q.quality), HeightFilters(q.quality);
    HeightFiltersText(q.quality);
    FiltersRoundTrip(h);
    NoFiltersText();
    assert AlternativeText(Merge(h, [])) == "bv*" + hf + "+ba";
    SplitOne("b" + hf, '/');
    SplitCons("bv*" + hf + "+ba", "b" + hf, '/');
    if q.container == Mp4 {
      Mp4Texts(q.quality);
      var plain := ("bv*" + hf + "+ba") + "/" + ("b" + hf);
      var second := "bv*" + hf + "[ext=mp4]" + "+ba" + "[ext=m4a]";
      SplitCons(second, plain, '/');
      SplitCons("bv*" + hf + "[vcodec^=avc1]" + "+ba" + "[ext=m4a]", second + "/" + plain, '/');
    }
  }

  lemma Mp4Texts(quality: Quality)
    ensures var hf, h := HeightText(quality), HeightFilters(quality);
      && AlternativeText(Merge(h + [Codec("avc1")], [Ext("m4a")])) == "bv*" + hf + "[vcodec^=avc1]" + "+ba" + "[ext=m4a]"
      && AlternativeText(Merge(h + [Ext("mp4")], [Ext("m4a")])) == "bv*" + hf + "[ext=mp4]" + "+ba" + "[ext=m4a]"
      && PlainFilters(h + [Codec("avc1")]) && PlainFilters(h + [Ext("mp4")]) && PlainFilters([Ext("m4a")])
  {
    hide FiltersText, HeightFilters, HeightText, FilterText, PlainFilter;
    var hf, h := HeightText(quality), HeightFilters(quality);
    HeightFiltersText(quality);
    FiltersTextConcat(h, [Codec("avc1")]);
    FiltersTextConcat(h, [Ext("mp4")]);
    CodecFilterText("avc1");
    ExtFilterText();
    Mp4FilterText();
    Associate("bv*", hf, "[vcodec^=avc1]");
    Associate("bv*", hf, "[ext=mp4]");
    PlainConstants();
  }

  lemma Mp4FilterText()
    ensures FiltersText([Ext("mp4")]) == "[ext=mp4]"
  {
    FiltersTextOne(Ext("mp4"));
  }

  lemma PlainConstants()
    ensures PlainFilter(Codec("avc1")) && PlainFilter(Ext("mp4")) && PlainFilter(Ext("m4a"))
  {
  }

  /** The built text parses, and says: the preferences first, then the script's own choice. */
  lemma BuildParses(q: Request)
    requires ValidRequest(q)
    ensures Parse(BuildSelector(q)) == Some(Preferred(q) + Script(q))
  {
    hide Split, Join, Preferred, Script, PreferredTexts, ScriptSelector, HeightText, AlternativeText, PlainAlternative;
    PreferredTextsAre(q);
    ScriptTextsAre(q);
    forall i | 0 <= i < |PreferredTexts(q)| ensures '/' !in PreferredTexts(q)[i] {
      AlternativeRoundTrip(Preferred(q)[i]);
    }
    SplitJoinLast(PreferredTexts(q), ScriptSelector(HeightText(q.quality), q.container), '/');
    assert AlternativeTexts(Preferred(q)) + AlternativeTexts(Script(q)) == AlternativeTexts(Preferred(q) + Script(q));
    AlternativesRoundTrip(Preferred(q) + Script(q));
  }

  lemma ScriptParses(q: Request)
    ensures Parse(ScriptSelector(HeightText(q.quality), q.container)) == Some(Script(q))
  {
    hide Split, Script, ScriptSelector, HeightText, AlternativeText, PlainAlternative;
    ScriptTextsAre(q);
    AlternativesRoundTrip(Script(q));
  }

  // --- What is picked -------------------------------------------------------------------

  /** What yt-dlp knows of a format. */
  datatype Format = Format(id: string, video: bool, audio: bool, height: Option<nat>, vcodec: string,
                           range: string, ext: string, language: string)

  /** What a selection downloads. */
  datatype Pick = Merged(video: Format, audio: Format) | Single(format: Format)

  predicate Meets(f: Format, filter: Filter) {
    match filter
    case Height(max) => f.height.Some? && f.height.value <= max
    case Codec(prefix) => prefix <= f.vcodec
    case Range(value) => f.range == value
    case Ext(value) => f.ext == value
    case Language(value) => f.language == value
  }

  predicate MeetsAll(f: Format, filters: seq<Filter>) {
    forall i :: 0 <= i < |filters| ==> Meets(f, filters[i])
  }

  /** `bv*` is any format with video, `ba` one with audio only, `b` one with both. */
  datatype Kind = WithVideo | AudioOnly | Both

  predicate IsKind(f: Format, kind: Kind) {
    match kind
    case WithVideo => f.video
    case AudioOnly => f.audio && !f.video
    case Both => f.video && f.audio
  }

  predicate Fits(f: Format, kind: Kind, filters: seq<Filter>) {
    IsKind(f, kind) && MeetsAll(f, filters)
  }

  /** The best that fits, of formats listed worst first. */
  function BestOf(formats: seq<Format>, kind: Kind, filters: seq<Filter>): (r: Option<Format>)
    ensures r.Some? ==> r.value in formats && Fits(r.value, kind, filters)
    ensures r.None? ==> forall f :: f in formats ==> !Fits(f, kind, filters)
  {
    if formats == [] then None
    else
      var last := formats[|formats| - 1];
      if Fits(last, kind, filters) then Some(last) else BestOf(formats[..|formats| - 1], kind, filters)
  }

  function PickOne(formats: seq<Format>, a: Alternative): Option<Pick> {
    match a
    case Merge(video, audio) =>
      (match (BestOf(formats, WithVideo, video), BestOf(formats, AudioOnly, audio))
       case (Some(v), Some(au)) => Some(Merged(v, au))
       case _ => None)
    case Whole(filters) =>
      match BestOf(formats, Both, filters)
      case Some(f) => Some(Single(f))
      case None => None
  }

  /** The first alternative that picks something decides. */
  function Select(formats: seq<Format>, selector: Selector): Option<Pick> {
    if selector == [] then None
    else if PickOne(formats, selector[0]).Some? then PickOne(formats, selector[0])
    else Select(formats, selector[1..])
  }

  /** What yt-dlp downloads for the text of a selector. */
  function Selection(formats: seq<Format>, text: string): Option<Pick> {
    match Parse(text)
    case None => None
    case Some(selector) => Select(formats, selector)
  }

  predicate PicksNothing(formats: seq<Format>, selector: Selector) {
    forall i :: 0 <= i < |selector| ==> PickOne(formats, selector[i]).None?
  }

  lemma {:induction false} SelectConcat(formats: seq<Format>, a: Selector, b: Selector)
    ensures Select(formats, a + b) == if Select(formats, a).Some? then Select(formats, a) else Select(formats, b)
  {
    if a == [] {
      assert a + b == b;
    } else {
      SelectConcat(formats, a[1..], b);
      assert (a + b)[1..] == a[1..] + b;
    }
  }

  /** A pick comes from one of the alternatives, the first that picks at all. */
  lemma {:induction false} SelectedBy(formats: seq<Format>, selector: Selector) returns (i: nat)
    requires Select(formats, selector).Some?
    ensures i < |selector| && PickOne(formats, selector[i]) == Select(formats, selector)
    ensures PicksNothing(formats, selector[..i])
  {
    if PickOne(formats, selector[0]).Some? {
      i := 0;
    } else {
      var k := SelectedBy(formats, selector[1..]);
      i := k + 1;
      forall j | 0 <= j < i ensures PickOne(formats, selector[j]).None? {
        if j > 0 {
          assert selector[j] == selector[1..][..k][j - 1];
        }
      }
    }
  }

  lemma {:induction false} SelectSome(formats: seq<Format>, selector: Selector, i: nat)
    requires i < |selector| && PickOne(formats, selector[i]).Some?
    ensures Select(formats, selector).Some?
  {
    if i > 0 {
      SelectSome(formats, selector[1..], i - 1);
    }
  }

  /** Whatever is asked for, the text starts with a letter, so it is never read as an option. */
  lemma SelectorStartsWithB(q: Request)
    ensures BuildSelector(q) != "" && BuildSelector(q)[0] == 'b'
  {
    hide HeightText, SdrText, LanguageText, Codecs;
    var texts := PreferredTexts(q) + [ScriptSelector(HeightText(q.quality), q.container)];
    assert texts[0] != "" && texts[0][0] == 'b';
  }

  // --- Main results ---------------------------------------------------------------------

  /** A pair of formats that is all the user asked for, with the codec at place `k` of those
      asked for when there are any. */
  predicate Wanted(q: Request, video: Format, audio: Format, k: nat) {
    && IsKind(video, WithVideo) && IsKind(audio, AudioOnly)
    && UnderCeiling(q.quality, video)
    && (Codecs(q) != [] ==> k < |Codecs(q)| && Codecs(q)[k] <= video.vcodec)
    && (!q.allowHdr ==> video.range == "SDR")
    && (q.container == Mp4 ==> audio.ext == "m4a")
    && (q.language.Some? ==> audio.language == q.language.value)
  }

  predicate UnderCeiling(quality: Quality, f: Format) {
    Ceiling(quality).Some? ==> f.height.Some? && f.height.value <= Ceiling(quality).value
  }

  predicate HasPreferences(q: Request) {
    q.codec != AnyCodec || q.preferGpu || !q.allowHdr || q.language.Some?
  }

  /** What the qualities are called. */
  function NameOf(quality: Quality): string {
    match quality
    case Q144 => "144p"
    case Q240 => "240p"
    case Q360 => "360p"
    case Q480 => "480p"
    case Q720 => "720p"
    case Q1080 => "1080p"
    case Q1440 => "1440p"
    case Q2160 => "2160p"
    case Q4k => "4k"
    case Best => "best"
  }

  /** The ceiling is the number in the name, 2160 for 4k, and none for the best. */
  lemma CeilingIsInTheName(quality: Quality)
    ensures Ceiling(quality).None? <==> quality == Best
    ensures quality == Q4k ==> Ceiling(quality) == Some(2160)
    ensures quality != Best && quality != Q4k ==> NameOf(quality) == Decimal(Ceiling(quality).value) + "p"
  {
    hide Decimal;
    if quality != Best {
      var h := Ceiling(quality).value;
      if h < 1000 { ThreeDigits(h); } else { FourDigits(h); }
    }
  }

  lemma ThreeDigits(n: nat)
    requires 100 <= n < 1000
    ensures Decimal(n) == ['0' + (n / 100) as char, '0' + (n / 10 % 10) as char, '0' + (n % 10) as char]
  {
    assert Decimal(n / 10) == Decimal(n / 100) + ['0' + (n / 10 % 10) as char];
  }

  lemma FourDigits(n: nat)
    requires 1000 <= n < 10000
    ensures Decimal(n) == ['0' + (n / 1000) as char, '0' + (n / 100 % 10) as char, '0' + (n / 10 % 10) as char,
                           '0' + (n % 10) as char]
  {
    ThreeDigits(n / 10);
  }

  /** What a wanted pair is, codec by codec: the one that was asked for, or H.264 first and
      VP9 second where the GPU has to decode it. */
  lemma WantedSpelled(q: Request, video: Format, audio: Format, k: nat)
    ensures Wanted(q, video, audio, k) <==>
      && video.video && audio.audio && !audio.video
      && (match q.codec
          case H264 => k == 0 && "avc1" <= video.vcodec
          case Vp9 => k == 0 && "vp9" <= video.vcodec
          case Av1 => k == 0 && "av01" <= video.vcodec
          case AnyCodec => q.preferGpu ==> (k == 0 && "avc1" <= video.vcodec) || (k == 1 && "vp9" <= video.vcodec))
      && UnderCeiling(q.quality, video)
      && (!q.allowHdr ==> video.range == "SDR")
      && (q.container == Mp4 ==> audio.ext == "m4a")
      && (q.language.Some? ==> audio.language == q.language.value)
  {
    hide UnderCeiling;
  }

  /** What is best is the last in the list that fits. */
  lemma {:induction false} BestIsLast(formats: seq<Format>, kind: Kind, filters: seq<Filter>) returns (i: nat)
    requires BestOf(formats, kind, filters).Some?
    ensures i < |formats| && BestOf(formats, kind, filters) == Some(formats[i]) && Fits(formats[i], kind, filters)
    ensures forall j :: i < j < |formats| ==> !Fits(formats[j], kind, filters)
  {
    hide Fits;
    var n := |formats| - 1;
    if Fits(formats[n], kind, filters) {
      i := n;
    } else {
      i := BestIsLast(formats[..n], kind, filters);
      forall j | i < j < |formats| ensures !Fits(formats[j], kind, filters) {
        assert j < n ==> formats[j] == formats[..n][j];
      }
    }
  }

  /** The script's own text, for either container. */
  lemma ScriptSpelled(hf: string)
    ensures ScriptSelector(hf, Mkv) == "bv*" + hf + "+ba/b" + hf
    ensures ScriptSelector(hf, Mp4) ==
      "bv*" + hf + "[vcodec^=avc1]+ba[ext=m4a]/bv*" + hf + "[ext=mp4]+ba[ext=m4a]/bv*" + hf + "+ba/b" + hf
  {
    var plain := "bv*" + hf + "+ba/b" + hf;
    assert ("bv*" + hf + "+ba") + "/" + ("b" + hf) == plain;
    assert "bv*" + hf + "[vcodec^=avc1]" + "+ba" + "[ext=m4a]" == "bv*" + hf + "[vcodec^=avc1]+ba[ext=m4a]";
    assert "bv*" + hf + "[ext=mp4]" + "+ba" + "[ext=m4a]" == "bv*" + hf + "[ext=mp4]+ba[ext=m4a]";
  }

  lemma MeetsAllConcat(f: Format, a: seq<Filter>, b: seq<Filter>)
    ensures MeetsAll(f, a + b) <==> MeetsAll(f, a) && MeetsAll(f, b)
  {
    assert forall i :: 0 <= i < |a| ==> (a + b)[i] == a[i];
    assert forall i :: 0 <= i < |b| ==> (a + b)[|a| + i] == b[i];
  }

  lemma MeetsOne(f: Format, filter: Filter)
    ensures MeetsAll(f, [filter]) <==> Meets(f, filter)
  {
    assert [filter][0] == filter;
  }

  /** The `k`th preferred alternative asks for exactly that. */
  lemma PreferredWants(q: Request, k: nat, video: Format, audio: Format)
    requires k < |Preferred(q)|
    ensures Preferred(q)[k].Merge?
    ensures Wanted(q, video, audio, k) <==>
            Fits(video, WithVideo, Preferred(q)[k].video) && Fits(audio, AudioOnly, Preferred(q)[k].audio)
  {
    hide Codecs, Ceiling, MeetsAll, HeightFilters;
    var h := HeightFilters(q.quality);
    var term: seq<Filter> := if Codecs(q) != [] then [Codec(Codecs(q)[k])] else [];
    assert Preferred(q)[k] == Merge(h + term + SdrFilters(q), AudioFilters(q));
    MeetsAllConcat(video, h + term, SdrFilters(q));
    MeetsAllConcat(video, h, term);
    HeightFiltersMean(q.quality, video);
    MeetsNone(video);
    MeetsNone(audio);
    if Codecs(q) != [] {
      MeetsOne(video, Codec(Codecs(q)[k]));
    }
    MeetsOne(video, Range("SDR"));
    AudioFiltersMean(q, audio);
  }

  lemma MeetsNone(f: Format)
    ensures MeetsAll(f, [])
  {
  }

  lemma HeightFiltersMean(quality: Quality, f: Format)
    ensures MeetsAll(f, HeightFilters(quality)) <==> UnderCeiling(quality, f)
  {
    if Ceiling(quality).Some? {
      MeetsOne(f, Height(Ceiling(quality).value));
    }
  }

  lemma AudioFiltersMean(q: Request, f: Format)
    ensures MeetsAll(f, AudioFilters(q)) <==>
            (q.container == Mp4 ==> f.ext == "m4a") && (q.language.Some? ==> f.language == q.language.value)
  {
    hide MeetsAll;
    MeetsNone(f);
    MeetsOne(f, Ext("m4a"));
    if q.language.Some? {
      MeetsOne(f, Language(q.language.value));
    }
    MeetsAllConcat(f, if q.container == Mp4 then [Ext("m4a")] else [],
      if q.language.None? then [] else [Language(q.language.value)]);
  }

  /** The `k`th preferred alternative picks something exactly when a wanted pair exists, and
      then it picks one. */
  lemma PreferredPicks(q: Request, formats: seq<Format>, k: nat)
    requires k < |Preferred(q)|
    ensures PickOne(formats, Preferred(q)[k]).Some? <==> WantedExists(q, formats, k)
    ensures var pick := PickOne(formats, Preferred(q)[k]);
      pick.Some? ==> IsWanted(q, formats, pick.value, k)
  {
    hide Wanted, Preferred, Fits;
    var a := Preferred(q)[k];
    forall v, au ensures a.Merge? && (Wanted(q, v, au, k) <==> Fits(v, WithVideo, a.video) && Fits(au, AudioOnly, a.audio)) {
      PreferredWants(q, k, v, au);
    }
  }

  ghost predicate WantedExists(q: Request, formats: seq<Format>, k: nat) {
    exists v, a :: v in formats && a in formats && Wanted(q, v, a, k)
  }

  predicate IsWanted(q: Request, formats: seq<Format>, pick: Pick, k: nat) {
    pick.Merged? && pick.video in formats && pick.audio in formats && Wanted(q, pick.video, pick.audio, k)
  }

  ghost predicate IsFirstWanted(q: Request, formats: seq<Format>, pick: Pick, k: nat) {
    IsWanted(q, formats, pick, k) && forall j: nat :: j < k ==> !WantedExists(q, formats, j)
  }

  /** Preferences are preferences. While some pair has all that was asked for, such a pair is
      picked, with the first codec for which there is one; when there is none, what is picked
      is what the script's own selector picks. */
  lemma PreferencesDecideOnlyWhenTheyCan(q: Request, formats: seq<Format>)
    requires ValidRequest(q)
    ensures var picked := Selection(formats, BuildSelector(q));
      if exists k: nat :: k < |Preferred(q)| && WantedExists(q, formats, k)
      then picked.Some? && exists k: nat :: k < |Preferred(q)| && IsFirstWanted(q, formats, picked.value, k)
      else picked == Selection(formats, ScriptSelector(HeightText(q.quality), q.container))
  {
    hide BuildSelector, Parse, Preferred, Script, ScriptSelector, HeightText, WantedExists, IsWanted, PickOne;
    BuildParses(q);
    ScriptParses(q);
    var preferred := Preferred(q);
    SelectConcat(formats, preferred, Script(q));
    forall k: nat | k < |preferred| && WantedExists(q, formats, k) ensures Select(formats, preferred).Some? {
      PreferredPicks(q, formats, k);
      SelectSome(formats, preferred, k);
    }
    if Select(formats, preferred).Some? {
      var i := SelectedBy(formats, preferred);
      PreferredPicks(q, formats, i);
      forall j: nat | j < i ensures !WantedExists(q, formats, j) {
        PreferredPicks(q, formats, j);
        assert preferred[..i][j] == preferred[j];
      }
      assert IsFirstWanted(q, formats, Select(formats, preferred).value, i);
    }
  }

  /** A wanted pair is one the script's plain `bv*+ba` would also find something for. */
  lemma WantedMeansScriptPicks(q: Request, formats: seq<Format>, v: Format, a: Format, k: nat)
    requires v in formats && a in formats && Wanted(q, v, a, k)
    ensures Select(formats, Script(q)).Some?
  {
    hide Codecs, HeightFilters;
    var h := HeightFilters(q.quality);
    HeightFiltersMean(q.quality, v);
    MeetsNone(a);
    assert Fits(v, WithVideo, h) && Fits(a, AudioOnly, []);
    var i := |Script(q)| - 2;
    assert Script(q)[i] == Merge(h, []);
    SelectSome(formats, Script(q), i);
  }

  /** So something is downloaded exactly when the script would have downloaded something. */
  lemma SomethingPickedIffScriptPicks(q: Request, formats: seq<Format>)
    requires ValidRequest(q)
    ensures Selection(formats, BuildSelector(q)).Some? <==>
            Selection(formats, ScriptSelector(HeightText(q.quality), q.container)).Some?
  {
    hide BuildSelector, Parse, Preferred, Script, ScriptSelector, HeightText, PickOne, Wanted;
    PreferencesDecideOnlyWhenTheyCan(q, formats);
    ScriptParses(q);
    forall k: nat, v, a | v in formats && a in formats && Wanted(q, v, a, k) ensures Select(formats, Script(q)).Some? {
      WantedMeansScriptPicks(q, formats, v, a, k);
    }
  }

  /** Whatever is picked, its picture is no taller than the quality asked for. */
  lemma CeilingIsObeyed(q: Request, formats: seq<Format>)
    requires ValidRequest(q)
    ensures var picked := Selection(formats, BuildSelector(q));
      picked.Some? ==> UnderCeiling(q.quality, if picked.value.Merged? then picked.value.video else picked.value.format)
  {
    hide BuildSelector, Parse, Preferred, Script, ScriptSelector;
    hide HeightText, HeightFilters, AudioFilters, SdrFilters, MeetsAll, IsKind;
    BuildParses(q);
    var selector := Preferred(q) + Script(q);
    if Select(formats, selector).Some? {
      var i := SelectedBy(formats, selector);
      AllUnderCeiling(q, i);
      var rest := FirstFilters(selector[i])[|HeightFilters(q.quality)|..];
      assert FirstFilters(selector[i]) == HeightFilters(q.quality) + rest;
      var f := if selector[i].Merge? then Select(formats, selector).value.video else Select(formats, selector).value.format;
      MeetsAllConcat(f, HeightFilters(q.quality), rest);
      HeightFiltersMean(q.quality, f);
    }
  }

  function FirstFilters(a: Alternative): seq<Filter> {
    match a
    case Merge(video, _) => video
    case Whole(filters) => filters
  }

  lemma AllUnderCeiling(q: Request, i: nat)
    requires i < |Preferred(q) + Script(q)|
    ensures HeightFilters(q.quality) <= FirstFilters((Preferred(q) + Script(q))[i])
  {
    hide HeightFilters, Codecs, AudioFilters, SdrFilters;
  }

  /** With no preferences, and only then, the text is the script's own. */
  lemma WithoutPreferencesIdentical(q: Request)
    requires ValidRequest(q)
    ensures BuildSelector(q) == ScriptSelector(HeightText(q.quality), q.container) <==> !HasPreferences(q)
  {
    hide ScriptSelector, HeightText, Script, Parse, PreferredText;
    if HasPreferences(q) {
      hide Join;
      BuildParses(q);
      ScriptParses(q);
      assert |Preferred(q) + Script(q)| > |Script(q)|;
    } else {
      assert PreferredTexts(q) == [];
    }
  }
}
