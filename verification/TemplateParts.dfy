/** What a template says, for templates given as the parts they are made of
    (backend/app/library/naming.py). */
module TemplateParts {
  import opened Wrappers
  import opened Text
  import opened Naming

  datatype Part = Say(text: string) | Ask(token: Token)

  datatype Piece = Plain(parts: seq<Part>) | Block(square: bool, parts: seq<Part>)

  // ----------------------------------------------------------------- written as a template

  function Written(parts: seq<Part>): string {
    if parts == [] then ""
    else WrittenPart(parts[0]) + Written(parts[1..])
  }

  function WrittenPart(part: Part): string {
    match part case Say(text) => text case Ask(token) => Braced(token)
  }

  function Source(pieces: seq<Piece>): string {
    if pieces == [] then ""
    else SourceOf(pieces[0]) + Source(pieces[1..])
  }

  function SourceOf(piece: Piece): string {
    match piece
    case Plain(parts) => Written(parts)
    case Block(square, parts) => (if square then "[" else "(") + Written(parts) + (if square then "]" else ")")
  }

  // ----------------------------------------------------------------- read with values

  function Said(parts: seq<Part>, values: Values): string {
    if parts == [] then ""
    else SaidPart(parts[0], values) + Said(parts[1..], values)
  }

  function SaidPart(part: Part, values: Values): string {
    match part case Say(text) => text case Ask(token) => values.Get(token)
  }

  /** Some token of the block has no value. */
  predicate Dropped(piece: Piece, values: Values) {
    piece.Block? && exists i :: 0 <= i < |piece.parts| && piece.parts[i].Ask? && values.Get(piece.parts[i].token) == ""
  }

  /** A block is said only if every token in it has a value. */
  function AllSaid(pieces: seq<Piece>, values: Values): string {
    if pieces == [] then ""
    else SaidOf(pieces[0], values) + AllSaid(pieces[1..], values)
  }

  function SaidOf(piece: Piece, values: Values): string {
    match piece
    case Plain(parts) => Said(parts, values)
    case Block(square, parts) =>
      if Dropped(piece, values) then ""
      else (if square then "[" else "(") + Said(parts, values) + (if square then "]" else ")")
  }

  // ----------------------------------------------------------------- well formed

  /** Text that no token and no block can begin in. */
  predicate PlainText(s: string) {
    '{' !in s && '(' !in s && '[' !in s && ')' !in s && ']' !in s
  }

  predicate PartOk(part: Part) {
    part.Say? ==> PlainText(part.text)
  }

  predicate PieceOk(piece: Piece) {
    forall i :: 0 <= i < |piece.parts| ==> PartOk(piece.parts[i])
  }

  // ----------------------------------------------------------------- braced names

  lemma BracedShape(t: Token)
    ensures var s := Braced(t); |s| >= 4 && s[0] == '{' && s[|s| - 1] == '}'
  {
  }

  /** A braced name closes at its end only. */
  lemma BracedCloses(t: Token, i: nat)
    requires i < |Braced(t)| - 1
    ensures Braced(t)[i] != '}'
  {
  }

  lemma NoRoundOpen(t: Token, i: nat)
    requires i < |Braced(t)|
    ensures Braced(t)[i] != '('
  {
  }

  lemma NoRoundClose(t: Token, i: nat)
    requires i < |Braced(t)|
    ensures Braced(t)[i] != ')'
  {
  }

  lemma NoSquareOpen(t: Token, i: nat)
    requires i < |Braced(t)|
    ensures Braced(t)[i] != '['
  {
  }

  lemma NoSquareClose(t: Token, i: nat)
    requires i < |Braced(t)|
    ensures Braced(t)[i] != ']'
  {
  }

  /** Length and first letter tell the tokens apart. */
  lemma BracedInjective(t: Token, u: Token)
    requires |Braced(t)| == |Braced(u)| && Braced(t)[1] == Braced(u)[1]
    ensures t == u
  {
  }

  /** No braced name is the start of another with anything after it. */
  lemma BracedIsPrefixFree(t: Token, u: Token, rest: string)
    requires Braced(u) <= Braced(t) + rest
    ensures t == u
  {
    hide Braced;
    var a, b := |Braced(u)|, |Braced(t)|;
    var text := Braced(t) + rest;
    BracedShape(t);
    BracedShape(u);
    assert text[..a] == Braced(u);
    if a < b {
      assert text[a - 1] == Braced(t)[a - 1] == Braced(u)[a - 1];
      BracedCloses(t, a - 1);
    } else if a > b {
      assert text[b - 1] == Braced(t)[b - 1] == Braced(u)[b - 1];
      BracedCloses(u, b - 1);
    } else {
      assert text[1] == Braced(t)[1] == Braced(u)[1];
      BracedInjective(t, u);
    }
  }

  lemma {:induction false} TokenAtFinds(text: string, tokens: seq<Token>, t: Token)
    requires t in tokens && Braced(t) <= text
    ensures TokenAt(text, tokens).Some?
  {
    hide Braced;
    if !(Braced(tokens[0]) <= text) { TokenAtFinds(text, tokens[1..], t); }
  }

  lemma EveryToken(t: Token)
    ensures t in TOKENS
  {
    assert t == TOKENS[match t
      case MovieTitle => 0 case ReleaseYear => 1 case SeriesTitle => 2 case Season00 => 3 case Season => 4
      case Episode00 => 5 case EpisodeTitle => 6 case AirDate => 7 case QualityFull => 8 case Title => 9 case Id => 10];
  }

  lemma TokenAtBraced(t: Token, rest: string)
    ensures TokenAt(Braced(t) + rest, TOKENS) == Some(t)
  {
    EveryToken(t);
    hide Braced, TOKENS, TokenAt;
    TokenAtFinds(Braced(t) + rest, TOKENS, t);
    BracedIsPrefixFree(t, TokenAt(Braced(t) + rest, TOKENS).value, rest);
  }

  lemma TokenAtPlain(text: string)
    requires text != "" && text[0] != '{'
    ensures TokenAt(text, TOKENS) == None
  {
    hide TOKENS, TokenAt, Braced;
    var r := TokenAt(text, TOKENS);
    if r.Some? {
      BracedShape(r.value);
    }
  }

  // ----------------------------------------------------------------- expanding

  lemma ExpandToken(t: Token, rest: string, values: Values)
    ensures Expand(Braced(t) + rest, values) == values.Get(t) + Expand(rest, values)
    ensures TokensIn(Braced(t) + rest) == {t} + TokensIn(rest)
  {
    hide Braced, TOKENS, TokenAt;
    TokenAtBraced(t, rest);
    assert (Braced(t) + rest)[|Braced(t)|..] == rest;
  }

  lemma {:induction false} ExpandText(text: string, rest: string, values: Values)
    requires '{' !in text
    ensures Expand(text + rest, values) == text + Expand(rest, values)
    ensures TokensIn(text + rest) == TokensIn(rest)
  {
    hide TOKENS, TokenAt, Braced;
    if text == "" {
      assert text + rest == rest;
    } else {
      var whole := text + rest;
      TokenAtPlain(whole);
      assert whole[1..] == text[1..] + rest && whole[0] == text[0];
      ExpandText(text[1..], rest, values);
      assert text == [text[0]] + text[1..];
    }
  }

  /** The tokens asked for. */
  function Asked(parts: seq<Part>): set<Token> {
    set i | 0 <= i < |parts| && parts[i].Ask? :: parts[i].token
  }

  lemma AskedNothing()
    ensures Asked([]) == {}
  {
  }

  lemma AskedFirst(parts: seq<Part>)
    requires parts != []
    ensures Asked(parts) == (if parts[0].Ask? then {parts[0].token} else {}) + Asked(parts[1..])
  {
    assert forall i :: 0 < i < |parts| ==> parts[i] == parts[1..][i - 1];
  }

  lemma {:induction false} ExpandWritten(parts: seq<Part>, rest: string, values: Values)
    requires forall i :: 0 <= i < |parts| ==> PartOk(parts[i])
    ensures Expand(Written(parts) + rest, values) == Said(parts, values) + Expand(rest, values)
    ensures TokensIn(Written(parts) + rest) == Asked(parts) + TokensIn(rest)
  {
    hide Expand, TokensIn, Braced, Asked, WrittenPart, SaidPart, PartOk;
    if parts == [] {
      assert Written(parts) + rest == rest;
      AskedNothing();
    } else {
      ExpandWritten(parts[1..], rest, values);
      AskedFirst(parts);
      ExpandPart(parts[0], Written(parts[1..]) + rest, values);
      Associate(WrittenPart(parts[0]), Written(parts[1..]), rest);
      Associate(SaidPart(parts[0], values), Said(parts[1..], values), Expand(rest, values));
    }
  }

  lemma Associate(a: string, b: string, c: string)
    ensures (a + b) + c == a + (b + c)
  {
  }

  lemma ExpandPart(part: Part, rest: string, values: Values)
    requires PartOk(part)
    ensures Expand(WrittenPart(part) + rest, values) == SaidPart(part, values) + Expand(rest, values)
    ensures TokensIn(WrittenPart(part) + rest) == (if part.Ask? then {part.token} else {}) + TokensIn(rest)
  {
    hide Expand, TokensIn, Braced;
    match part
    case Say(text) => ExpandText(text, rest, values);
    case Ask(token) => ExpandToken(token, rest, values);
  }

  // ----------------------------------------------------------------- dropping blocks

  lemma DropNext(c: char, rest: string, empty: set<Token>)
    requires c != '(' && c != '['
    ensures DropEmptyBlocks([c] + rest, empty) == [c] + DropEmptyBlocks(rest, empty)
  {
    assert BlockLength([c] + rest) == 0 && ([c] + rest)[1..] == rest;
  }

  lemma {:induction false} DropText(text: string, rest: string, empty: set<Token>)
    requires '(' !in text && '[' !in text
    ensures DropEmptyBlocks(text + rest, empty) == text + DropEmptyBlocks(rest, empty)
  {
    hide DropEmptyBlocks;
    if text == "" {
      assert text + rest == rest;
    } else {
      assert text == [text[0]] + text[1..] && text + rest == [text[0]] + (text[1..] + rest);
      DropNext(text[0], text[1..] + rest, empty);
      DropText(text[1..], rest, empty);
    }
  }

  lemma {:induction false} NextBracketSkips(text: string, open: char, close: char, from: nat, to: nat)
    requires from <= to < |text| && text[to] == close
    requires forall i :: from <= i < to ==> text[i] != open && text[i] != close
    ensures NextBracket(text, open, close, from) == to
    decreases |text| - from
  {
    if from < to { NextBracketSkips(text, open, close, from + 1, to); }
  }

  lemma DropBlock(square: bool, inner: string, rest: string, empty: set<Token>)
    requires forall c :: c in inner ==> c !in {'(', ')', '[', ']'}
    ensures var block := (if square then "[" else "(") + inner + (if square then "]" else ")");
      DropEmptyBlocks(block + rest, empty) ==
      (if TokensIn(block) !! empty then block else "") + DropEmptyBlocks(rest, empty)
  {
    hide TokensIn;
    var block := (if square then "[" else "(") + inner + (if square then "]" else ")");
    var text := block + rest;
    var open, close := if square then '[' else '(', if square then ']' else ')';
    assert text[0] == open && text[|inner| + 1] == close;
    forall i | 1 <= i < |inner| + 1 ensures text[i] != open && text[i] != close {
      assert text[i] == inner[i - 1] && inner[i - 1] in inner;
    }
    NextBracketSkips(text, open, close, 1, |inner| + 1);
    assert BlockLength(text) == |block| && text[..|block|] == block && text[|block|..] == rest;
  }

  lemma {:induction false} WrittenHoldsNoBracket(parts: seq<Part>, c: char)
    requires forall i :: 0 <= i < |parts| ==> PartOk(parts[i])
    requires c == '(' || c == ')' || c == '[' || c == ']'
    ensures c !in Written(parts)
  {
    hide Braced;
    if parts != [] {
      WrittenHoldsNoBracket(parts[1..], c);
      if parts[0].Ask? { BracedHoldsNoBracket(parts[0].token, c); }
    }
  }

  lemma BracedHoldsNoBracket(t: Token, c: char)
    requires c == '(' || c == ')' || c == '[' || c == ']'
    ensures c !in Braced(t)
  {
    hide Braced;
    forall i | 0 <= i < |Braced(t)| ensures Braced(t)[i] != c {
      NoRoundOpen(t, i);
      NoRoundClose(t, i);
      NoSquareOpen(t, i);
      NoSquareClose(t, i);
    }
  }

  function KeptSource(pieces: seq<Piece>, values: Values): string {
    if pieces == [] then ""
    else (if Dropped(pieces[0], values) then "" else SourceOf(pieces[0])) + KeptSource(pieces[1..], values)
  }

  lemma {:induction false} DropSource(pieces: seq<Piece>, values: Values)
    requires forall i :: 0 <= i < |pieces| ==> PieceOk(pieces[i])
    ensures DropEmptyBlocks(Source(pieces), EmptyTokens(values)) == KeptSource(pieces, values)
  {
    hide DropEmptyBlocks, EmptyTokens, Dropped, SourceOf;
    if pieces == [] {
      DropNothing(EmptyTokens(values));
    } else {
      DropSource(pieces[1..], values);
      DropPiece(pieces[0], Source(pieces[1..]), values);
    }
  }

  lemma DropNothing(empty: set<Token>)
    ensures DropEmptyBlocks("", empty) == ""
  {
  }

  lemma DropPiece(piece: Piece, rest: string, values: Values)
    requires PieceOk(piece)
    ensures DropEmptyBlocks(SourceOf(piece) + rest, EmptyTokens(values)) ==
      (if Dropped(piece, values) then "" else SourceOf(piece)) + DropEmptyBlocks(rest, EmptyTokens(values))
  {
    hide DropEmptyBlocks, EmptyTokens, TokensIn, Written, Braced;
    match piece
    case Plain(parts) =>
      WrittenHoldsNoBracket(parts, '(');
      WrittenHoldsNoBracket(parts, '[');
      DropText(Written(parts), rest, EmptyTokens(values));
    case Block(square, parts) =>
      forall c | c in Written(parts) ensures c !in {'(', ')', '[', ']'} {
        WrittenHoldsNoBracket(parts, '(');
        WrittenHoldsNoBracket(parts, ')');
        WrittenHoldsNoBracket(parts, '[');
        WrittenHoldsNoBracket(parts, ']');
      }
      DropBlock(square, Written(parts), rest, EmptyTokens(values));
      BlockTokens(square, parts, values);
  }

  lemma BlockTokens(square: bool, parts: seq<Part>, values: Values)
    requires forall i :: 0 <= i < |parts| ==> PartOk(parts[i])
    ensures TokensIn(SourceOf(Block(square, parts))) !! EmptyTokens(values) <==> !Dropped(Block(square, parts), values)
  {
    hide TokensIn, Written;
    var open, close := if square then "[" else "(", if square then "]" else ")";
    ExpandText(open, Written(parts) + close, values);
    ExpandWritten(parts, close, values);
    ExpandText(close, "", values);
    NoTokens();
    hide Asked, EmptyTokens, Dropped;
    assert open + (Written(parts) + close) == SourceOf(Block(square, parts)) && close + "" == close;
    assert TokensIn(SourceOf(Block(square, parts))) == Asked(parts);
    AskedOfEmpty(square, parts, values);
  }

  lemma AskedOfEmpty(square: bool, parts: seq<Part>, values: Values)
    ensures Asked(parts) !! EmptyTokens(values) <==> !Dropped(Block(square, parts), values)
  {
    if i :| 0 <= i < |parts| && parts[i].Ask? && values.Get(parts[i].token) == "" {
      assert parts[i].token in Asked(parts) && parts[i].token in EmptyTokens(values);
    }
  }

  lemma NoTokens()
    ensures TokensIn("") == {}
  {
  }

  lemma {:induction false} ExpandKept(pieces: seq<Piece>, values: Values)
    requires forall i :: 0 <= i < |pieces| ==> PieceOk(pieces[i])
    ensures Expand(KeptSource(pieces, values), values) == AllSaid(pieces, values)
  {
    hide Expand, Dropped, SourceOf, SaidOf;
    if pieces == [] {
      ExpandNothing(values);
    } else {
      ExpandKept(pieces[1..], values);
      ExpandPiece(pieces[0], KeptSource(pieces[1..], values), values);
    }
  }

  lemma ExpandNothing(values: Values)
    ensures Expand("", values) == ""
  {
  }

  lemma ExpandPiece(piece: Piece, rest: string, values: Values)
    requires PieceOk(piece)
    ensures Expand((if Dropped(piece, values) then "" else SourceOf(piece)) + rest, values) ==
      SaidOf(piece, values) + Expand(rest, values)
  {
    hide Expand, Written, Said, PartOk;
    match piece
    case Plain(parts) => ExpandWritten(parts, rest, values);
    case Block(square, parts) =>
      if Dropped(piece, values) {
        assert "" + rest == rest;
      } else {
        ExpandBlock(if square then "[" else "(", parts, if square then "]" else ")", rest, values);
      }
  }

  lemma ExpandBlock(open: string, parts: seq<Part>, close: string, rest: string, values: Values)
    requires '{' !in open && '{' !in close && forall i :: 0 <= i < |parts| ==> PartOk(parts[i])
    ensures Expand((open + Written(parts) + close) + rest, values) ==
      (open + Said(parts, values) + close) + Expand(rest, values)
  {
    hide Expand, Written, Said, PartOk;
    ExpandText(open, Written(parts) + (close + rest), values);
    ExpandWritten(parts, close + rest, values);
    ExpandText(close, rest, values);
    Reassociate(open, Written(parts), close, rest);
    Reassociate(open, Said(parts, values), close, Expand(rest, values));
  }

  lemma Reassociate(a: string, b: string, c: string, d: string)
    ensures (a + b + c) + d == a + (b + (c + d))
  {
  }

  /** Any template made of plain text, tokens and blocks says what its parts say, with the
      blocks left out that ask for an empty value, its white space collapsed and its ends
      stripped. */
  lemma RenderSays(pieces: seq<Piece>, values: Values)
    requires forall i :: 0 <= i < |pieces| ==> PieceOk(pieces[i])
    ensures Render(Source(pieces), values) == Strip(Collapse(AllSaid(pieces, values)), SPACE_DOT)
  {
    hide DropEmptyBlocks, EmptyTokens, Expand, Collapse, Strip, Source, AllSaid, KeptSource, PieceOk;
    DropSource(pieces, values);
    ExpandKept(pieces, values);
  }

  // ----------------------------------------------------------------- part by part

  lemma Two(parts: seq<Part>, values: Values)
    requires |parts| >= 2
    ensures Written(parts) == WrittenPart(parts[0]) + (WrittenPart(parts[1]) + Written(parts[2..]))
    ensures Said(parts, values) == SaidPart(parts[0], values) + (SaidPart(parts[1], values) + Said(parts[2..], values))
  {
    hide WrittenPart, SaidPart;
    assert parts[1..][0] == parts[1] && parts[1..][1..] == parts[2..];
  }
}
