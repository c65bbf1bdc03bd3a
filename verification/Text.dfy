/** Strings as the application sees them: code points with their UTF-8 width
    (section 3 of RFC 3629), Python's strip, and decimal numbers. */
module Text {

  /** What `str.isspace` and the regular expression `\s` call white space. */
  predicate IsSpace(c: char) {
    var n := c as int;
    || 0x9 <= n <= 0xD || 0x1C <= n <= 0x20 || n == 0x85 || n == 0xA0 || n == 0x1680
    || 0x2000 <= n <= 0x200A || n == 0x2028 || n == 0x2029 || n == 0x202F || n == 0x205F || n == 0x3000
  }

  /** What `str.strip` takes off. */
  function Spaces(): set<char> {
    set c: char | IsSpace(c)
  }

  /** `not line.strip()`. */
  predicate IsBlank(line: string) {
    forall i :: 0 <= i < |line| ==> IsSpace(line[i])
  }

  /** The number of bytes one code point takes in UTF-8. */
  function Width(c: char): (w: nat)
    ensures 1 <= w <= 4
  {
    var n := c as int;
    if n < 0x80 then 1 else if n < 0x800 then 2 else if n < 0x10000 then 3 else 4
  }

  /** The bytes of one code point (the table in section 3 of RFC 3629). */
  function Utf8(c: char): seq<nat> {
    var n := c as int;
    if n <= 0x7F then [n]
    else if n <= 0x7FF then [0xC0 + n / 0x40, 0x80 + n % 0x40]
    else if n <= 0xFFFF then [0xE0 + n / 0x1000, 0x80 + n / 0x40 % 0x40, 0x80 + n % 0x40]
    else [0xF0 + n / 0x4_0000, 0x80 + n / 0x1000 % 0x40, 0x80 + n / 0x40 % 0x40, 0x80 + n % 0x40]
  }

  /** That is how many there are. */
  lemma WidthIsUtf8(c: char)
    ensures |Utf8(c)| == Width(c) && forall i :: 0 <= i < |Utf8(c)| ==> Utf8(c)[i] < 0x100
  {
  }

  /** `len(text.encode())`. */
  function ByteLen(s: string): nat {
    if s == "" then 0 else ByteLen(s[..|s| - 1]) + Width(s[|s| - 1])
  }

  lemma {:induction false} ByteLenConcat(a: string, b: string)
    ensures ByteLen(a + b) == ByteLen(a) + ByteLen(b)
  {
    if b == "" {
      assert a + b == a;
    } else {
      assert (a + b)[..|a + b| - 1] == a + b[..|b| - 1];
      ByteLenConcat(a, b[..|b| - 1]);
    }
  }

  lemma ByteLenSlice(s: string, i: nat, j: nat)
    requires i <= j <= |s|
    ensures ByteLen(s[i..j]) <= ByteLen(s)
    ensures j - i < |s| ==> ByteLen(s[i..j]) < ByteLen(s)
  {
    assert s == s[..i] + s[i..j] + s[j..];
    ByteLenConcat(s[..i] + s[i..j], s[j..]);
    ByteLenConcat(s[..i], s[i..j]);
    ByteLenAtLeastLength(s[..i]);
    ByteLenAtLeastLength(s[j..]);
  }

  lemma {:induction false} ByteLenAtLeastLength(s: string)
    ensures |s| <= ByteLen(s)
  {
    if s != "" {
      ByteLenAtLeastLength(s[..|s| - 1]);
    }
  }

  /** `text.encode()[:limit].decode(errors="ignore")`: a code point whose last byte lies
      beyond the cut is dropped, so what is left is the longest prefix that fits. */
  function Cut(s: string, limit: nat): (r: string)
    ensures r <= s && ByteLen(r) <= limit
    ensures forall k :: |r| < k <= |s| ==> ByteLen(s[..k]) > limit
  {
    if ByteLen(s) <= limit then s
    else
      var front := s[..|s| - 1];
      assert forall k :: 0 <= k < |s| ==> s[..k] == front[..k];
      assert s[..|s|] == s;
      Cut(front, limit)
  }

  /** `text.lstrip(chars)` for the characters in `drop`. */
  function StripLeft(s: string, drop: set<char>): (r: string)
    ensures |r| <= |s| && r == s[|s| - |r|..]
    ensures r != "" ==> r[0] !in drop
    ensures forall i :: 0 <= i < |s| - |r| ==> s[i] in drop
  {
    if s == "" || s[0] !in drop then s
    else
      var r := StripLeft(s[1..], drop);
      assert forall i :: 1 <= i < |s| - |r| ==> s[i] == s[1..][i - 1];
      r
  }

  /** `text.rstrip(chars)`. */
  function StripRight(s: string, drop: set<char>): (r: string)
    ensures r <= s
    ensures r != "" ==> r[|r| - 1] !in drop
    ensures forall i :: |r| <= i < |s| ==> s[i] in drop
  {
    if s == "" || s[|s| - 1] !in drop then s else StripRight(s[..|s| - 1], drop)
  }

  /** `text.strip(chars)`. */
  function Strip(s: string, drop: set<char>): (r: string)
    ensures |r| <= |s|
    ensures r != "" ==> r[0] !in drop && r[|r| - 1] !in drop
  {
    StripRight(StripLeft(s, drop), drop)
  }

  lemma SliceOfSlice(s: string, i: nat, n: nat)
    requires i + n <= |s|
    ensures s[i..][..n] == s[i..i + n]
    ensures forall k :: i + n <= k < |s| ==> s[k] == s[i..][k - i]
  {
  }

  /** Stripping takes a slice. */
  lemma StripIsSlice(s: string, drop: set<char>) returns (i: nat, j: nat)
    ensures i <= j <= |s| && Strip(s, drop) == s[i..j]
    ensures forall k :: 0 <= k < i || j <= k < |s| ==> s[k] in drop
    ensures (s != "" ==> s[0] !in drop) ==> i == 0
  {
    hide StripLeft, StripRight;
    var l := StripLeft(s, drop);
    var r := StripRight(l, drop);
    i := |s| - |l|;
    j := i + |r|;
    SliceOfSlice(s, i, |r|);
  }

  lemma {:induction false} StripLeftPrefix(left: string, rest: string, drop: set<char>)
    requires forall i :: 0 <= i < |left| ==> left[i] in drop
    requires rest != "" ==> rest[0] !in drop
    ensures StripLeft(left + rest, drop) == rest
  {
    hide StripLeft;
    if left == "" {
      assert left + rest == rest;
      StripLeftNothing(rest, drop);
    } else {
      StripLeftPrefix(left[1..], rest, drop);
      assert left + rest == [left[0]] + (left[1..] + rest);
      StripLeftNext(left[0], left[1..] + rest, drop);
    }
  }

  lemma StripLeftNothing(s: string, drop: set<char>)
    requires s != "" ==> s[0] !in drop
    ensures StripLeft(s, drop) == s
  {
  }

  lemma StripLeftNext(c: char, rest: string, drop: set<char>)
    requires c in drop
    ensures StripLeft([c] + rest, drop) == StripLeft(rest, drop)
  {
    assert ([c] + rest)[1..] == rest;
  }

  lemma {:induction false} StripRightSuffix(rest: string, right: string, drop: set<char>)
    requires forall i :: 0 <= i < |right| ==> right[i] in drop
    requires rest != "" ==> rest[|rest| - 1] !in drop
    ensures StripRight(rest + right, drop) == rest
  {
    if right == "" {
      assert rest + right == rest;
    } else {
      StripRightSuffix(rest, right[..|right| - 1], drop);
      assert (rest + right)[..|rest + right| - 1] == rest + right[..|right| - 1];
    }
  }

  /** What is between the ends that are stripped. */
  lemma StripBetween(left: string, middle: string, right: string, drop: set<char>)
    requires forall i :: 0 <= i < |left| ==> left[i] in drop
    requires forall i :: 0 <= i < |right| ==> right[i] in drop
    requires middle != "" && middle[0] !in drop && middle[|middle| - 1] !in drop
    ensures Strip(left + middle + right, drop) == middle
  {
    hide StripLeft, StripRight;
    assert left + middle + right == left + (middle + right);
    StripLeftPrefix(left, middle + right, drop);
    StripRightSuffix(middle, right, drop);
  }

  /** One more at either end that is dropped makes no difference. */
  lemma StripIgnores(s: string, c: char, drop: set<char>)
    requires c in drop
    ensures Strip([c] + s, drop) == Strip(s, drop) && Strip(s + [c], drop) == Strip(s, drop)
  {
    hide Strip;
    var i, j := StripIsSlice(s, drop);
    var left, middle, right := s[..i], s[i..j], s[j..];
    assert s == left + middle + right;
    if middle == "" {
      AllInDrop(c, s, drop);
    } else {
      OneMore(c, left, middle, right, drop);
    }
  }

  lemma AllInDrop(c: char, s: string, drop: set<char>)
    requires c in drop && forall k :: 0 <= k < |s| ==> s[k] in drop
    ensures Strip([c] + s, drop) == "" && Strip(s + [c], drop) == ""
  {
    hide Strip;
    AllStripped([c] + s, drop);
    AllStripped(s + [c], drop);
  }

  lemma OneMore(c: char, left: string, middle: string, right: string, drop: set<char>)
    requires c in drop && (forall i :: 0 <= i < |left| ==> left[i] in drop)
    requires forall i :: 0 <= i < |right| ==> right[i] in drop
    requires middle != "" && middle[0] !in drop && middle[|middle| - 1] !in drop
    ensures Strip([c] + (left + middle + right), drop) == middle && Strip(left + middle + right + [c], drop) == middle
  {
    hide Strip;
    assert [c] + left + middle + right == [c] + (left + middle + right);
    assert left + middle + (right + [c]) == left + middle + right + [c];
    StripBetween([c] + left, middle, right, drop);
    StripBetween(left, middle, right + [c], drop);
  }

  lemma AllStripped(s: string, drop: set<char>)
    requires forall k :: 0 <= k < |s| ==> s[k] in drop
    ensures Strip(s, drop) == ""
  {
    hide StripLeft, StripRight;
    var i, j := StripIsSlice(s, drop);
  }

  /** A string with nothing to strip at either end is its own strip. */
  lemma StripIdentity(s: string, drop: set<char>)
    requires s != "" ==> s[0] !in drop && s[|s| - 1] !in drop
    ensures Strip(s, drop) == s
  {
  }

  predicate EndsWith(s: string, suffix: string) {
    |suffix| <= |s| && s[|s| - |suffix|..] == suffix
  }

  /** `s.split(sep)`. */
  function Split(s: string, sep: char): (parts: seq<string>)
    ensures parts != []
  {
    if s == "" then [""]
    else
      var rest := Split(s[1..], sep);
      if s[0] == sep then [""] + rest else [[s[0]] + rest[0]] + rest[1..]
  }

  /** `sep.join(parts)` of at least one part. */
  function Join(parts: seq<string>, sep: char): string
    requires parts != []
  {
    if |parts| == 1 then parts[0] else parts[0] + [sep] + Join(parts[1..], sep)
  }

  lemma {:induction false} SplitOne(s: string, sep: char)
    requires sep !in s
    ensures Split(s, sep) == [s]
  {
    if s != "" {
      SplitOne(s[1..], sep);
      assert [s[0]] + s[1..] == s;
    }
  }

  /** Splitting before a separator and after it. */
  lemma {:induction false} SplitCons(head: string, tail: string, sep: char)
    requires sep !in head
    ensures Split(head + [sep] + tail, sep) == [head] + Split(tail, sep)
  {
    var s := head + [sep] + tail;
    if head == "" {
      assert s[1..] == tail;
    } else {
      SplitCons(head[1..], tail, sep);
      assert s[1..] == head[1..] + [sep] + tail;
      assert [head[0]] + head[1..] == head;
    }
  }

  /** Splitting at one separator, and then each half. */
  lemma {:induction false} SplitBoth(head: string, tail: string, sep: char)
    ensures Split(head + [sep] + tail, sep) == Split(head, sep) + Split(tail, sep)
  {
    hide Split;
    var s := head + [sep] + tail;
    if head == "" {
      SplitCons("", tail, sep);
      SplitOne("", sep);
    } else {
      var rest := head[1..] + [sep] + tail;
      SplitBoth(head[1..], tail, sep);
      assert s == [head[0]] + rest && head == [head[0]] + head[1..];
      SplitNext(head[0], rest, sep);
      SplitNext(head[0], head[1..], sep);
    }
  }

  lemma SplitNext(c: char, rest: string, sep: char)
    ensures Split([c] + rest, sep) ==
            if c == sep then [""] + Split(rest, sep) else [[c] + Split(rest, sep)[0]] + Split(rest, sep)[1..]
  {
    assert ([c] + rest)[1..] == rest;
  }

  /** Joining what was split gives the text back. */
  lemma {:induction false} JoinSplit(s: string, sep: char)
    ensures Join(Split(s, sep), sep) == s
  {
    if s != "" {
      var rest := Split(s[1..], sep);
      JoinSplit(s[1..], sep);
      if s[0] == sep {
        JoinCons("", rest, sep);
      } else if |rest| > 1 {
        assert rest == [rest[0]] + rest[1..];
        JoinCons(rest[0], rest[1..], sep);
        JoinCons([s[0]] + rest[0], rest[1..], sep);
      }
    }
  }

  lemma {:induction false} JoinBoth(a: seq<string>, b: seq<string>, sep: char)
    requires a != [] && b != []
    ensures Join(a + b, sep) == Join(a, sep) + [sep] + Join(b, sep)
  {
    if |a| == 1 {
      assert a == [a[0]];
      JoinCons(a[0], b, sep);
    } else {
      JoinBoth(a[1..], b, sep);
      assert a + b == [a[0]] + (a[1..] + b);
      JoinCons(a[0], a[1..] + b, sep);
    }
  }

  /** The last part may hold the separator: it is then split further. */
  lemma {:induction false} SplitJoinLast(parts: seq<string>, last: string, sep: char)
    requires forall i :: 0 <= i < |parts| ==> sep !in parts[i]
    ensures Split(Join(parts + [last], sep), sep) == parts + Split(last, sep)
  {
    hide Split;
    if parts == [] {
      assert parts + [last] == [last];
    } else {
      var head, rest := parts[0], parts[1..];
      SplitJoinLast(rest, last, sep);
      JoinCons(head, rest + [last], sep);
      assert parts + [last] == [head] + (rest + [last]);
      SplitCons(head, Join(rest + [last], sep), sep);
      ConsConcat(parts, Split(last, sep));
    }
  }

  lemma JoinCons(head: string, rest: seq<string>, sep: char)
    requires rest != []
    ensures Join([head] + rest, sep) == head + [sep] + Join(rest, sep)
  {
    assert ([head] + rest)[1..] == rest;
  }

  lemma ConsConcat(parts: seq<string>, more: seq<string>)
    requires parts != []
    ensures [parts[0]] + (parts[1..] + more) == parts + more
  {
  }

  predicate AllDigits(s: string) {
    forall i :: 0 <= i < |s| ==> '0' <= s[i] <= '9'
  }

  /** `str(n)` for a natural number. */
  function Decimal(n: nat): (s: string)
    ensures s != "" && AllDigits(s)
  {
    var digit := ['0' + (n % 10) as char];
    if n < 10 then digit else Decimal(n / 10) + digit
  }

  function DigitsValue(s: string): nat
    requires AllDigits(s)
  {
    if s == "" then 0 else 10 * DigitsValue(s[..|s| - 1]) + (s[|s| - 1] - '0') as nat
  }

  /** Reading a printed number back gives that number. */
  lemma {:induction false} DecimalRoundTrip(n: nat)
    ensures DigitsValue(Decimal(n)) == n
  {
    var s := Decimal(n);
    if n < 10 {
      assert s[..|s| - 1] == "";
      assert DigitsValue("") == 0;
    } else {
      DecimalRoundTrip(n / 10);
      assert s[..|s| - 1] == Decimal(n / 10);
    }
  }
}
