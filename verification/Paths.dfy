/** POSIX paths as the components below `/`, with the parts of pathlib the organizer uses. */
module Paths {

  type Path = seq<string>

  /** One name inside a directory: never empty, never holding a separator. */
  predicate IsComponent(name: string) {
    name != "" && '/' !in name
  }

  /** An absolute path with no `.` or `..` in it, as `Path.resolve` returns. */
  predicate IsCanonical(p: Path) {
    forall i :: 0 <= i < |p| ==> IsComponent(p[i]) && p[i] != "." && p[i] != ".."
  }

  function Parent(p: Path): Path {
    if p == [] then [] else p[..|p| - 1]
  }

  function Name(p: Path): string {
    if p == [] then "" else p[|p| - 1]
  }

  function WithName(p: Path, name: string): (r: Path)
    ensures Parent(r) == Parent(p) && Name(r) == name
  {
    Parent(p) + [name]
  }

  /** The index of the last dot, or -1 (`str.rfind`). */
  function LastDot(s: string): (i: int)
    ensures -1 <= i < |s|
    ensures i >= 0 ==> s[i] == '.'
    ensures forall k :: i < k < |s| ==> s[k] != '.'
  {
    if s == "" then -1
    else if s[|s| - 1] == '.' then |s| - 1
    else LastDot(s[..|s| - 1])
  }

  /** `PurePath.suffix`: the last dot and what follows, unless either side of it is empty. */
  function Suffix(name: string): string {
    var i := LastDot(name);
    if 0 < i < |name| - 1 then name[i..] else ""
  }

  /** `PurePath.stem`. */
  function Stem(name: string): string {
    var i := LastDot(name);
    if 0 < i < |name| - 1 then name[..i] else name
  }

  /** A name is its stem followed by its suffix. */
  lemma StemAndSuffix(name: string)
    ensures Stem(name) + Suffix(name) == name
  {
  }

  /** `path.is_relative_to(root)`. */
  predicate Under(p: Path, root: Path) {
    root <= p
  }

  lemma UnderChild(parent: Path, root: Path, name: string)
    requires Under(parent, root)
    ensures Under(parent + [name], root)
  {
  }

  lemma UnderParent(p: Path, root: Path)
    requires Under(p, root) && p != root
    ensures Under(Parent(p), root) && p != []
  {
  }

  lemma IsItsName(p: Path)
    requires p != []
    ensures p == Parent(p) + [Name(p)]
  {
  }

  /** `Path.resolve` where no component is a symbolic link. */
  function Resolve(p: Path): Path {
    if p == [] then []
    else
      var rest := Resolve(p[..|p| - 1]);
      var last := p[|p| - 1];
      if last == "." || last == "" then rest
      else if last == ".." then Parent(rest)
      else rest + [last]
  }

  lemma {:induction false} ResolveCanonical(p: Path)
    requires IsCanonical(p)
    ensures Resolve(p) == p
  {
    if p != [] {
      ResolveCanonical(p[..|p| - 1]);
      assert p == p[..|p| - 1] + [p[|p| - 1]];
    }
  }

  lemma {:induction false} ResolveOnwards(a: Path, b: Path, rest: Path)
    requires Resolve(a) == Resolve(b)
    ensures Resolve(a + rest) == Resolve(b + rest)
  {
    if rest == [] {
      assert a + rest == a && b + rest == b;
    } else {
      var front := rest[..|rest| - 1];
      ResolveOnwards(a, b, front);
      assert (a + rest)[..|a + rest| - 1] == a + front && (b + rest)[..|b + rest| - 1] == b + front;
    }
  }

  /** A name and the `..` after it cancel out, wherever they stand; a `.` or an empty piece
      says nothing. */
  lemma ResolveCancels(p: Path, name: string, rest: Path)
    requires IsComponent(name) && name != "." && name != ".."
    ensures Resolve(p + [name, ".."] + rest) == Resolve(p + rest)
    ensures Resolve(p + ["."] + rest) == Resolve(p + rest) && Resolve(p + [""] + rest) == Resolve(p + rest)
    ensures Resolve([".."] + rest) == Resolve(rest)
  {
    assert (p + [name, ".."])[..|p| + 1] == p + [name] && (p + [name])[..|p|] == p;
    assert Resolve(p + [name]) == Resolve(p) + [name];
    assert (p + ["."])[..|p|] == p && (p + [""])[..|p|] == p;
    ResolveOnwards(p + [name, ".."], p, rest);
    ResolveOnwards(p + ["."], p, rest);
    ResolveOnwards(p + [""], p, rest);
    assert [".."][..0] == [] && [] + rest == rest;
    ResolveOnwards([".."], [], rest);
  }

  /** Resolving leaves no `.`, `..` or empty piece. */
  lemma {:induction false} ResolvedIsCanonical(p: Path)
    requires forall i :: 0 <= i < |p| ==> '/' !in p[i]
    ensures IsCanonical(Resolve(p))
  {
    if p != [] {
      ResolvedIsCanonical(p[..|p| - 1]);
    }
  }

  /** A name with an extension, one dot and then none, has that extension as its suffix. */
  lemma ExtensionIsSuffix(base: string, ext: string)
    requires base != "" && |ext| > 1 && ext[0] == '.' && forall i :: 0 < i < |ext| ==> ext[i] != '.'
    ensures Suffix(base + ext) == ext && Stem(base + ext) == base
  {
    var name := base + ext;
    assert name[|base|] == '.';
    assert forall k :: |base| < k < |name| ==> name[k] == ext[k - |base|];
    assert LastDot(name) == |base|;
  }

  /** What `suffix` returns is empty or such an extension. */
  lemma SuffixIsExtension(name: string)
    ensures var ext := Suffix(name);
      ext == "" || (|ext| > 1 && ext[0] == '.' && forall i :: 0 < i < |ext| ==> ext[i] != '.')
  {
    var d := LastDot(name);
    if 0 < d < |name| - 1 {
      assert forall i :: 0 <= i < |name| - d ==> name[d..][i] == name[d + i];
    }
  }

  /** `str(path)`. */
  function Print(p: Path): string {
    if p == [] then "" else Print(p[..|p| - 1]) + "/" + p[|p| - 1]
  }

  /** `Path(text)` for the text of an absolute path: the pieces between separators. */
  function Parse(text: string): Path {
    if text == "" then [] else ParseFrom(text, "")
  }

  /** Reads `text` from its end, with `piece` the characters of the last component so far. */
  function ParseFrom(text: string, piece: string): Path
    decreases |text|
  {
    if text == "" then if piece == "" then [] else [piece]
    else
      var c, rest := text[|text| - 1], text[..|text| - 1];
      if c == '/' then ParseFrom(rest, "") + (if piece == "" then [] else [piece])
      else ParseFrom(rest, [c] + piece)
  }

  lemma {:induction false} ParsePiece(text: string, name: string, piece: string)
    requires '/' !in name
    ensures ParseFrom(text + name, piece) == ParseFrom(text, name + piece)
  {
    if name == "" {
      assert text + name == text && name + piece == piece;
    } else {
      var c, front := name[|name| - 1], name[..|name| - 1];
      assert (text + name)[..|text + name| - 1] == text + front;
      assert front + ([c] + piece) == name + piece;
      ParsePiece(text, front, [c] + piece);
    }
  }

  /** What the marker file says is the path that was written into it. */
  lemma {:induction false} PrintParse(p: Path)
    requires forall i :: 0 <= i < |p| ==> IsComponent(p[i])
    ensures Parse(Print(p)) == p
  {
    if p != [] {
      var front, last := p[..|p| - 1], p[|p| - 1];
      PrintParse(front);
      ParsePiece(Print(front) + "/", last, "");
      assert last + "" == last;
      assert (Print(front) + "/")[..|Print(front) + "/"| - 1] == Print(front);
      assert p == front + [last];
    }
  }
}
