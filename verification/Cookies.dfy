/** Netscape cookie files (backend/app/ytdlp/cookies.py). */
module Cookies {
  import opened Digits
  import opened Text

  const HEADER := "# Netscape HTTP Cookie File"
  const HTTPONLY_PREFIX := "#HttpOnly_"
  const FIELDS := 7

  datatype CookieLine = CookieLine(raw: string, domain: string, expires: int)

  /** `Rejected` is CookieFileError with its line, 0 for the whole file; `Crashed` is the
      ValueError of `int` on an expiry the digit check lets through. */
  datatype ParseResult = Parsed(cookies: seq<CookieLine>) | Rejected(line: nat, reason: Reason) | Crashed(line: nat)
  datatype Reason = NotACookieFile | WrongFields | WrongExpiry

  /** What one line of the file is. */
  datatype Reading = Nothing | Cookie(cookie: CookieLine) | Bad(reason: Reason) | Crash

  // --- Lines ----------------------------------------------------------------------------

  /** Where `str.splitlines` breaks. */
  predicate IsBreak(c: char) {
    var n := c as int;
    0xA <= n <= 0xD || 0x1C <= n <= 0x1E || n == 0x85 || n == 0x2028 || n == 0x2029
  }

  predicate OneLine(s: string) {
    forall i :: 0 <= i < |s| ==> !IsBreak(s[i])
  }

  /** The place of the first break, or the length. */
  function LineEnd(s: string): (n: nat)
    ensures n <= |s| && OneLine(s[..n])
    ensures n < |s| ==> IsBreak(s[n])
  {
    if s == "" || IsBreak(s[0]) then 0
    else
      var n := LineEnd(s[1..]);
      assert s[..n + 1] == [s[0]] + s[1..][..n];
      n + 1
  }

  /** `text.splitlines()`; `\r\n` is one break. */
  function SplitLines(s: string): (lines: seq<string>)
    ensures forall i :: 0 <= i < |lines| ==> OneLine(lines[i])
    decreases |s|
  {
    var n := LineEnd(s);
    if s == "" then []
    else if n == |s| then [s]
    else if s[n] == '\r' && n + 1 < |s| && s[n + 1] == '\n' then [s[..n]] + SplitLines(s[n + 2..])
    else [s[..n]] + SplitLines(s[n + 1..])
  }

  /** Each line with `\n` after it. */
  function Unlines(lines: seq<string>): string {
    if lines == [] then "" else lines[0] + "\n" + Unlines(lines[1..])
  }

  lemma LineEndIs(line: string, rest: string)
    requires OneLine(line)
    ensures LineEnd(line + "\n" + rest) == |line|
  {
    var s := line + "\n" + rest;
    assert s[|line|] == '\n' && s[..|line|] == line;
  }

  lemma {:induction false} SplitLinesUnlines(lines: seq<string>)
    requires forall i :: 0 <= i < |lines| ==> OneLine(lines[i])
    ensures SplitLines(Unlines(lines)) == lines
  {
    if lines != [] {
      var line, rest := lines[0], Unlines(lines[1..]);
      var s := line + "\n" + rest;
      LineEndIs(line, rest);
      SplitLinesUnlines(lines[1..]);
      assert s[..|line|] == line && s[|line|] == '\n' && s[|line| + 1..] == rest;
    }
  }

  // --- One line -------------------------------------------------------------------------

  /** The expiry field: not a number, one that `int` reads, or one that passes the check for
      digits and that `int` then refuses. */
  datatype Expiry = NotANumber | Unreadable | At(time: int)

  function ReadExpiry(field: string): Expiry {
    var text := Strip(field, Spaces());
    var digits := StripLeft(text, {'-'});
    var dashes := |text| - |digits|;
    if digits == "" || !AllDigit(digits) then NotANumber
    else if dashes > 1 || !IntReads(digits) then Unreadable
    else At(if dashes == 0 then Value(digits) else -(Value(digits) as int))
  }

  function RemovePrefix(s: string, prefix: string): string {
    if prefix <= s then s[|prefix|..] else s
  }

  /** One round of the loop in `parse`. */
  function ReadLine(line: string): (r: Reading)
    ensures r.Cookie? ==> r.cookie.raw == line
  {
    if IsBlank(line) then Nothing
    else if "#" <= line && !(HTTPONLY_PREFIX <= line) then Nothing
    else
      var fields := Split(line, '\t');
      if |fields| != FIELDS then Bad(WrongFields)
      else
        match ReadExpiry(fields[4])
        case NotANumber => Bad(WrongExpiry)
        case Unreadable => Crash
        case At(time) => Cookie(CookieLine(line, RemovePrefix(fields[0], HTTPONLY_PREFIX), time))
  }

  // --- The file -------------------------------------------------------------------------

  /** The first line that is not blank, stripped. */
  function FirstText(lines: seq<string>): string {
    if lines == [] then ""
    else if !IsBlank(lines[0]) then Strip(lines[0], Spaces())
    else FirstText(lines[1..])
  }

  /** What the lines say, the first of them being number `number`. */
  function ParseLines(lines: seq<string>, number: nat): ParseResult {
    if lines == [] then Parsed([]) else Then(ReadLine(lines[0]), ParseLines(lines[1..], number + 1), number)
  }

  /** What line `number` and what the lines after it give. */
  function Then(reading: Reading, rest: ParseResult, number: nat): ParseResult {
    match reading
    case Nothing => rest
    case Bad(reason) => Rejected(number, reason)
    case Crash => Crashed(number)
    case Cookie(c) => After([c], rest)
  }

  /** What a result becomes when `cookies` were read before it. */
  function After(cookies: seq<CookieLine>, r: ParseResult): ParseResult {
    if r.Parsed? then Parsed(cookies + r.cookies) else r
  }

  function ParseText(text: string): ParseResult {
    var lines := SplitLines(text);
    if FirstText(lines) != HEADER then Rejected(0, NotACookieFile) else ParseLines(lines, 1)
  }

  /** `parse`. */
  method Parse(text: string) returns (r: ParseResult)
    ensures r == ParseText(text)
  {
    hide ReadLine, SplitLines, FirstText, IsSpace;
    var lines := SplitLines(text);
    if FirstText(lines) != HEADER {
      return Rejected(0, NotACookieFile);
    }
    var cookies: seq<CookieLine> := [];
    var i := 0;
    while i < |lines|
      invariant 0 <= i <= |lines|
      invariant ParseLines(lines, 1) == After(cookies, ParseLines(lines[i..], i + 1))
    {
      assert lines[i..][0] == lines[i] && lines[i..][1..] == lines[i + 1..];
      match ReadLine(lines[i]) {
        case Nothing =>
        case Bad(reason) => return Rejected(i + 1, reason);
        case Crash => return Crashed(i + 1);
        case Cookie(c) =>
          AfterOne(cookies, c, ParseLines(lines[i + 1..], i + 2));
          cookies := cookies + [c];
      }
      i := i + 1;
    }
    return Parsed(cookies);
  }

  lemma AfterOne(cookies: seq<CookieLine>, c: CookieLine, r: ParseResult)
    ensures After(cookies, After([c], r)) == After(cookies + [c], r)
  {
    if r.Parsed? {
      assert cookies + ([c] + r.cookies) == cookies + [c] + r.cookies;
    }
  }

  function Raws(cookies: seq<CookieLine>): (r: seq<string>)
    ensures |r| == |cookies|
  {
    seq(|cookies|, i requires 0 <= i < |cookies| => cookies[i].raw)
  }

  /** `render`. */
  function Render(cookies: seq<CookieLine>): string {
    Unlines([HEADER, ""] + Raws(cookies))
  }

  // --- Main results ---------------------------------------------------------------------

  /** A cookie that is what its own line says. */
  predicate Readable(c: CookieLine) {
    OneLine(c.raw) && ReadLine(c.raw) == Cookie(c)
  }

  predicate AllReadable(cookies: seq<CookieLine>) {
    forall i :: 0 <= i < |cookies| ==> Readable(cookies[i])
  }

  lemma {:induction false} ParseLinesReadable(lines: seq<string>, number: nat)
    requires forall i :: 0 <= i < |lines| ==> OneLine(lines[i])
    ensures var r := ParseLines(lines, number); r.Parsed? ==> AllReadable(r.cookies)
  {
    hide ReadLine, IsSpace, IsBreak;
    if lines != [] {
      LineIsKept(lines[0]);
      ParseLinesReadable(lines[1..], number + 1);
    }
  }

  lemma LineIsKept(line: string)
    ensures ReadLine(line).Cookie? ==> ReadLine(line).cookie.raw == line
  {
  }

  /** Whatever `parse` returns is readable. */
  lemma ParsedIsReadable(text: string)
    ensures ParseText(text).Parsed? ==> AllReadable(ParseText(text).cookies)
  {
    ParseLinesReadable(SplitLines(text), 1);
  }

  lemma {:induction false} ParseLinesRaws(cookies: seq<CookieLine>, number: nat)
    requires AllReadable(cookies)
    ensures ParseLines(Raws(cookies), number) == Parsed(cookies)
  {
    hide ReadLine, IsSpace, IsBreak;
    if cookies != [] {
      ParseLinesRaws(cookies[1..], number + 1);
      assert Raws(cookies)[1..] == Raws(cookies[1..]);
      assert [cookies[0]] + cookies[1..] == cookies;
      assert Readable(cookies[0]);
    }
  }

  lemma HeaderIsComment()
    ensures !IsBlank(HEADER) && ReadLine(HEADER) == Nothing && ReadLine("") == Nothing
  {
    hide Split, ReadExpiry;
    assert HEADER[0] == '#' && HEADER[1] == ' ' && HTTPONLY_PREFIX[1] == 'H';
  }

  lemma HeaderIsOneLine()
    ensures OneLine(HEADER) && OneLine("")
  {
    hide IsBreak;
    forall i | 0 <= i < |HEADER| ensures !IsBreak(HEADER[i]) {
      Printable(HEADER[i]);
    }
  }

  lemma Printable(c: char)
    requires ' ' <= c <= '~'
    ensures !IsBreak(c) && (c != ' ' ==> c !in Spaces())
  {
  }

  lemma HeaderIsItsStrip()
    ensures Strip(HEADER, Spaces()) == HEADER
  {
    hide StripLeft, StripRight, Strip, Spaces;
    assert HEADER[0] == '#' && HEADER[|HEADER| - 1] == 'e';
    Printable('#');
    Printable('e');
    StripIdentity(HEADER, Spaces());
  }

  /** Rendering and parsing again gives back exactly the cookies. */
  lemma ParseRender(cookies: seq<CookieLine>)
    requires AllReadable(cookies)
    ensures ParseText(Render(cookies)) == Parsed(cookies)
  {
    hide ReadLine, Strip, OneLine, IsBlank, IsSpace, IsBreak, ParseLines, SplitLines, Unlines, Spaces;
    HeaderIsComment();
    HeaderIsOneLine();
    HeaderIsItsStrip();
    var raws := Raws(cookies);
    var lines := [HEADER, ""] + raws;
    forall i | 0 <= i < |lines| ensures OneLine(lines[i]) {
      if i >= 2 {
        assert Readable(cookies[i - 2]);
      }
    }
    SplitLinesUnlines(lines);
    assert lines[0] == HEADER && lines[1..] == [""] + raws && lines[1..][0] == "" && lines[1..][1..] == raws;
    ParseLinesRaws(cookies, 3);
    TwoLinesOfNothing(lines);
  }

  lemma TwoLinesOfNothing(lines: seq<string>)
    requires |lines| >= 2 && ReadLine(lines[0]) == Nothing && ReadLine(lines[1]) == Nothing
    ensures ParseLines(lines, 1) == ParseLines(lines[2..], 3)
  {
    hide ReadLine;
    assert lines[1..][1..] == lines[2..];
  }

  /** A file that was parsed once survives any number of rewrites. */
  lemma RewriteChangesNothing(text: string)
    requires ParseText(text).Parsed?
    ensures ParseText(Render(ParseText(text).cookies)) == ParseText(text)
  {
    hide ParseText, Render;
    ParsedIsReadable(text);
    ParseRender(ParseText(text).cookies);
  }

  /** The line an error names is the first that is wrong, and what it says is what is wrong
      with it; without an error no line is. */
  lemma {:induction false} FirstWrongLine(lines: seq<string>, number: nat)
    ensures match ParseLines(lines, number)
      case Rejected(n, reason) =>
        && number <= n < number + |lines| && ReadLine(lines[n - number]) == Bad(reason)
        && GoodLines(lines[..n - number])
      case Crashed(n) =>
        && number <= n < number + |lines| && ReadLine(lines[n - number]) == Crash
        && GoodLines(lines[..n - number])
      case Parsed(_) => GoodLines(lines)
  {
    hide ReadLine, IsSpace, IsBreak;
    if lines != [] {
      FirstWrongLine(lines[1..], number + 1);
      var r := ParseLines(lines, number);
      if !r.Parsed? {
        var n := if r.Rejected? then r.line else r.line;
        if n > number {
          assert lines[..n - number] == [lines[0]] + lines[1..][..n - number - 1];
        }
      }
    }
  }

  predicate GoodLines(lines: seq<string>) {
    forall i :: 0 <= i < |lines| ==> ReadLine(lines[i]).Nothing? || ReadLine(lines[i]).Cookie?
  }

  // --- A line by its fields -------------------------------------------------------------

  lemma SplitCells(cells: seq<string>)
    requires cells != [] && forall i :: 0 <= i < |cells| ==> '\t' !in cells[i]
    ensures Split(Join(cells, '\t'), '\t') == cells
  {
    var last := cells[|cells| - 1];
    SplitJoinLast(cells[..|cells| - 1], last, '\t');
    SplitOne(last, '\t');
    assert cells == cells[..|cells| - 1] + [last];
  }

  /** A line that is neither blank nor a comment. */
  predicate SaysSomething(line: string) {
    !IsBlank(line) && (line[0] == '#' ==> "#HttpOnly_" <= line)
  }

  /** Blank lines and comments are passed over, and no other line is. */
  lemma NothingIff(line: string)
    ensures ReadLine(line) == Nothing <==> !SaysSomething(line)
  {
    hide IsSpace, Split, ReadExpiry;
    if line != "" { assert "#" <= line <==> line[0] == '#'; }
  }

  lemma ReadCells(cells: seq<string>)
    requires cells != [] && forall i :: 0 <= i < |cells| ==> '\t' !in cells[i]
    requires SaysSomething(Join(cells, '\t'))
    ensures ReadLine(Join(cells, '\t')) ==
      if |cells| != 7 then Bad(WrongFields)
      else match ReadExpiry(cells[4])
        case NotANumber => Bad(WrongExpiry)
        case Unreadable => Crash
        case At(time) => Cookie(CookieLine(Join(cells, '\t'), RemovePrefix(cells[0], "#HttpOnly_"), time))
  {
    hide IsSpace, Split, ReadExpiry, Join, RemovePrefix;
    SplitCells(cells);
    var line := Join(cells, '\t');
    assert "#" <= line <==> line[0] == '#';
  }

  /** A line of other than seven fields is wrong. */
  lemma OtherThanSeven(cells: seq<string>)
    requires cells != [] && |cells| != 7 && forall i :: 0 <= i < |cells| ==> '\t' !in cells[i]
    requires SaysSomething(Join(cells, '\t'))
    ensures ReadLine(Join(cells, '\t')) == Bad(WrongFields)
  {
    hide ReadLine, Join, SaysSomething;
    ReadCells(cells);
  }

  /** Seven fields with a number in the fifth are a cookie of the domain in the first, which
      may be marked, and that expires at the number. */
  lemma SevenFields(cells: seq<string>, marked: bool, domain: string, left: string, minus: bool, digits: string, right: string)
    requires |cells| == 7 && forall i :: 0 <= i < 7 ==> '\t' !in cells[i]
    requires cells[0] == (if marked then "#HttpOnly_" else "") + domain && (!marked && domain != "" ==> domain[0] != '#')
    requires cells[4] == left + (if minus then "-" else "") + digits + right
    requires AllSpace(left) && AllSpace(right) && digits != "" && AllDecimal(digits) && |digits| <= 4300
    ensures ReadLine(Join(cells, '\t')) == Cookie(CookieLine(
      Join(cells, '\t'), domain, if minus then -(Value(digits) as int) else Value(digits)))
  {
    hide ReadLine, ReadExpiry, Join, Value, AllSpace, IsSpace, IsDecimal, SaysSomething;
    CellsSaySomething(cells, marked, domain, left + (if minus then "-" else ""), digits, right);
    ReadCells(cells);
    ExpiryField(cells[4], left, minus, digits, right);
    DomainField(cells[0], marked, domain);
  }

  lemma ExpiryField(field: string, left: string, minus: bool, digits: string, right: string)
    requires field == left + (if minus then "-" else "") + digits + right
    requires AllSpace(left) && AllSpace(right) && digits != "" && AllDecimal(digits) && |digits| <= 4300
    ensures ReadExpiry(field) == At(if minus then -(Value(digits) as int) else Value(digits))
  {
    hide ReadExpiry, Value, AllSpace, IsDecimal, IsDigit, AllDigit, AllDecimal, Dashes;
    var n := if minus then 1 else 0;
    DashesAre(minus);
    DecimalIsDigit(digits);
    MiddleTogether(left, Dashes(n), digits, right);
    SpelledExpiry(field, left, n, digits, right);
  }

  lemma DashesAre(minus: bool)
    ensures Dashes(if minus then 1 else 0) == if minus then "-" else ""
  {
  }

  lemma DecimalIsDigit(digits: string)
    requires AllDecimal(digits)
    ensures AllDigit(digits)
  {
    hide IsDecimal, IsOtherDigit;
  }

  lemma MiddleTogether(a: string, b: string, c: string, d: string)
    ensures a + b + c + d == a + (b + c) + d
  {
    assert a + b + c == a + (b + c);
  }

  lemma DomainField(field: string, marked: bool, domain: string)
    requires field == (if marked then "#HttpOnly_" else "") + domain && (!marked && domain != "" ==> domain[0] != '#')
    ensures RemovePrefix(field, "#HttpOnly_") == domain
  {
    if !marked { assert "#HttpOnly_"[0] == '#' && field == domain; }
  }

  /** Such a line holds a digit, and starts with the mark or with no `#`. */
  lemma CellsSaySomething(cells: seq<string>, marked: bool, domain: string, left: string, digits: string, right: string)
    requires |cells| == 7 && cells[0] == (if marked then "#HttpOnly_" else "") + domain
    requires !marked && domain != "" ==> domain[0] != '#'
    requires cells[4] == left + digits + right && digits != "" && AllDecimal(digits)
    ensures SaysSomething(Join(cells, '\t'))
  {
    hide Join, IsSpace, IsDecimal, IsOtherDigit;
    var line := Join(cells, '\t');
    var before, after := CellInLine(cells, 4);
    var k := |before| + |left|;
    assert line[k] == cells[4][|left|] == digits[0];
    DigitIsNoSpace(digits[0]);
    var nothing, more := CellInLine(cells, 0);
    assert nothing == "" by { hide AllDecimal; }
    assert line == cells[0] + more && more[0] == '\t';
    if marked { assert line[..10] == "#HttpOnly_"; }
  }

  /** Where a cell stands in its line. */
  lemma CellInLine(cells: seq<string>, i: nat) returns (before: string, after: string)
    requires i < |cells|
    ensures Join(cells, '\t') == before + cells[i] + after
    ensures i == 0 ==> before == ""
    ensures i + 1 < |cells| ==> after != "" && after[0] == '\t'
  {
    hide Join;
    before, after := "", "";
    var rest := cells[i..];
    assert rest == [cells[i]] + cells[i + 1..] && cells == cells[..i] + rest;
    if i > 0 {
      JoinBoth(cells[..i], rest, '\t');
      before := Join(cells[..i], '\t') + ['\t'];
    } else {
      assert rest == cells;
    }
    if i + 1 < |cells| {
      JoinCons(cells[i], cells[i + 1..], '\t');
      after := ['\t'] + Join(cells[i + 1..], '\t');
    } else {
      assert rest == [cells[i]];
      JoinOne(cells[i]);
    }
    assert Join(rest, '\t') == cells[i] + after;
    assert before + (cells[i] + after) == before + cells[i] + after;
  }

  lemma JoinOne(s: string)
    ensures Join([s], '\t') == s
  {
  }

  // --- When `parse` raises something else ------------------------------------------------

  predicate AllSpace(s: string) {
    forall i :: 0 <= i < |s| ==> IsSpace(s[i])
  }

  function Dashes(n: nat): string {
    seq(n, _ => '-')
  }

  /** The field is digits after `n` dashes, between white space. */
  predicate Spells(field: string, left: string, n: nat, digits: string, right: string) {
    && field == left + (Dashes(n) + digits) + right
    && AllSpace(left) && AllSpace(right) && digits != "" && AllDigit(digits)
  }

  lemma SpaceIsInSpaces(s: string)
    requires AllSpace(s)
    ensures forall i :: 0 <= i < |s| ==> s[i] in Spaces()
  {
  }

  lemma NumberHasFirmEnds(n: nat, digits: string)
    requires digits != "" && AllDigit(digits)
    ensures var text := Dashes(n) + digits;
      text != "" && text[0] !in Spaces() && text[|text| - 1] !in Spaces() && digits[0] !in {'-'}
  {
    hide IsDigit;
    DigitIsNoSpace(digits[0]);
    DigitIsNoSpace(digits[|digits| - 1]);
    var text := Dashes(n) + digits;
    assert text[|text| - 1] == digits[|digits| - 1];
    assert text[0] == if n == 0 then digits[0] else '-';
  }

  /** What the field says, for any number of dashes and any digits. */
  lemma SpelledExpiry(field: string, left: string, n: nat, digits: string, right: string)
    requires Spells(field, left, n, digits, right)
    ensures ReadExpiry(field) ==
      if n > 1 || !IntReads(digits) then Unreadable else At(if n == 0 then Value(digits) else -(Value(digits) as int))
  {
    hide IsDigit, IsDecimal, IsSpace, Spaces, Strip, StripLeft, Value;
    var text := Dashes(n) + digits;
    NumberHasFirmEnds(n, digits);
    SpaceIsInSpaces(left);
    SpaceIsInSpaces(right);
    StripBetween(left, text, right, Spaces());
    StripLeftPrefix(Dashes(n), digits, {'-'});
  }

  /** A field that is not spelled so is not a number. */
  lemma ExpirySpells(field: string) returns (left: string, n: nat, digits: string, right: string)
    requires ReadExpiry(field) != NotANumber
    ensures Spells(field, left, n, digits, right)
  {
    hide IsDigit, IsDecimal, IsSpace, StripLeft, StripRight, Strip, Value, Spaces, AllDigit, Dashes, AllSpace, IntReads;
    var text := Strip(field, Spaces());
    digits := StripLeft(text, {'-'});
    n := |text| - |digits|;
    DashesInFront(text);
    var i, j := StripIsSlice(field, Spaces());
    left, right := field[..i], field[j..];
    EndsAreSpaces(field, i, j);
    ThreeSlices(field, i, j);
  }

  lemma ThreeSlices(s: string, i: nat, j: nat)
    requires i <= j <= |s|
    ensures s[..i] + s[i..j] + s[j..] == s
  {
  }

  lemma DashesInFront(text: string)
    ensures var digits := StripLeft(text, {'-'}); text == Dashes(|text| - |digits|) + digits
  {
    hide StripLeft;
    var digits := StripLeft(text, {'-'});
    var n := |text| - |digits|;
    forall k | 0 <= k < n ensures text[k] == Dashes(n)[k] {
      assert text[k] in {'-'};
    }
    assert text == text[..n] + text[n..] && text[..n] == Dashes(n);
  }

  lemma EndsAreSpaces(field: string, i: nat, j: nat)
    requires i <= j <= |field| && forall k :: 0 <= k < i || j <= k < |field| ==> field[k] in Spaces()
    ensures AllSpace(field[..i]) && AllSpace(field[j..])
  {
    hide IsSpace;
    forall k | 0 <= k < |field| - j ensures IsSpace(field[j..][k]) {
      assert field[j + k] in Spaces();
    }
  }

  /** The check for digits and `int` disagree on this field. */
  ghost predicate CrashField(field: string) {
    exists left: string, n: nat, digits: string, right: string ::
      Spells(field, left, n, digits, right) && (n >= 2 || !AllDecimal(digits) || |digits| > MAX_STR_DIGITS)
  }

  /** `int` raises exactly for fields of digits with two dashes or more before them, with a
      digit among them that is no decimal, or with more than 4300 of them. */
  lemma UnreadableIff(field: string)
    ensures ReadExpiry(field) == Unreadable <==> CrashField(field)
  {
    hide ReadExpiry, Spells, AllDecimal;
    if ReadExpiry(field) == Unreadable {
      var left, n, digits, right := ExpirySpells(field);
      SpelledExpiry(field, left, n, digits, right);
    }
    if CrashField(field) {
      var left: string, n: nat, digits: string, right: string :|
        Spells(field, left, n, digits, right) && (n >= 2 || !AllDecimal(digits) || |digits| > MAX_STR_DIGITS);
      SpelledExpiry(field, left, n, digits, right);
    }
  }

  /** A line that is read as a cookie, but for such an expiry. */
  ghost predicate CrashLine(line: string) {
    && !IsBlank(line) && (line[0] == '#' ==> HTTPONLY_PREFIX <= line)
    && var fields := Split(line, '\t'); |fields| == FIELDS && CrashField(fields[4])
  }

  lemma CrashLineIff(line: string)
    ensures ReadLine(line) == Crash <==> CrashLine(line)
  {
    hide ReadExpiry, CrashField, IsSpace, Split;
    var fields := Split(line, '\t');
    if |fields| == FIELDS { UnreadableIff(fields[4]); }
    if line != "" { assert "#" <= line <==> line[0] == '#'; }
  }

  lemma {:induction false} CrashedLines(lines: seq<string>, number: nat, n: nat)
    requires number <= n < number + |lines| && ReadLine(lines[n - number]) == Crash && GoodLines(lines[..n - number])
    ensures ParseLines(lines, number) == Crashed(n)
  {
    hide ReadLine;
    if n > number {
      assert lines[..n - number][0] == lines[0];
      assert GoodLines(lines[1..][..n - number - 1]) by {
        assert lines[..n - number][1..] == lines[1..][..n - number - 1];
      }
      CrashedLines(lines[1..], number + 1, n);
    }
  }

  /** `parse` raises something other than its own error on line `n` if and only if the header
      is right, line `n` is such a line, and every line before it is good. */
  lemma CrashedIff(text: string, n: nat)
    ensures ParseText(text) == Crashed(n) <==>
      var lines := SplitLines(text);
      FirstText(lines) == HEADER && 1 <= n <= |lines| && CrashLine(lines[n - 1]) && GoodLines(lines[..n - 1])
  {
    hide SplitLines, FirstText, ReadLine, CrashLine, GoodLines, ParseLines;
    var lines := SplitLines(text);
    FirstWrongLine(lines, 1);
    if 1 <= n <= |lines| {
      CrashLineIff(lines[n - 1]);
      if ReadLine(lines[n - 1]) == Crash && GoodLines(lines[..n - 1]) { CrashedLines(lines, 1, n); }
    }
  }

  lemma PlainSpelling(n: nat, digits: string)
    requires digits != "" && AllDigit(digits)
    ensures ReadExpiry(Dashes(n) + digits) ==
      if n > 1 || !IntReads(digits) then Unreadable else At(if n == 0 then Value(digits) else -(Value(digits) as int))
  {
    hide ReadExpiry, IsDigit, IsDecimal;
    var field := Dashes(n) + digits;
    assert "" + field + "" == field;
    SpelledExpiry(field, "", n, digits, "");
  }

  /** Three fields that do it: two dashes, */
  lemma TwoDashesCrash()
    ensures ReadExpiry("--5") == Unreadable
  {
    hide ReadExpiry, IsDecimal, IsOtherDigit;
    AsciiDigits('5');
    PlainSpelling(2, "5");
    assert Dashes(2) == "--" && "--" + "5" == "--5";
  }

  /** a superscript, */
  lemma SuperscriptCrashes()
    ensures ReadExpiry("\U{00B2}") == Unreadable
  {
    hide ReadExpiry, IsDecimal, IsOtherDigit;
    SuperscriptTwo();
    var two := "\U{00B2}";
    assert !IsDecimal(two[0]);
    PlainSpelling(0, two);
    assert Dashes(0) + two == two;
  }

  /** and one digit too many. */
  lemma TooManyDigitsCrash(long: string)
    requires |long| == MAX_STR_DIGITS + 1 && forall i :: 0 <= i < |long| ==> long[i] == '0'
    ensures ReadExpiry(long) == Unreadable
  {
    hide ReadExpiry, IsDecimal, IsOtherDigit;
    AsciiDigits('0');
    PlainSpelling(0, long);
    assert Dashes(0) + long == long;
  }
}
