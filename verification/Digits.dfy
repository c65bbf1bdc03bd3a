/** What Python's `str.isdigit` and `int` take for digits (Unicode 15.1, as in Python 3.13). */
module Digits {
  import opened Text

  /** Blocks of ten decimal digits whose zero is at a multiple of 16. */
  predicate StartsAtZero(n: int) {
    || 0x30 <= n <= 0x39 || 0x660 <= n <= 0x669 || 0x6F0 <= n <= 0x6F9 || 0x7C0 <= n <= 0x7C9
    || 0xE50 <= n <= 0xE59 || 0xED0 <= n <= 0xED9 || 0xF20 <= n <= 0xF29 || 0x1040 <= n <= 0x1049
    || 0x1090 <= n <= 0x1099 || 0x17E0 <= n <= 0x17E9 || 0x1810 <= n <= 0x1819 || 0x19D0 <= n <= 0x19D9
    || 0x1A80 <= n <= 0x1A89 || 0x1A90 <= n <= 0x1A99 || 0x1B50 <= n <= 0x1B59 || 0x1BB0 <= n <= 0x1BB9
    || 0x1C40 <= n <= 0x1C49 || 0x1C50 <= n <= 0x1C59 || 0xA620 <= n <= 0xA629 || 0xA8D0 <= n <= 0xA8D9
    || 0xA900 <= n <= 0xA909 || 0xA9D0 <= n <= 0xA9D9 || 0xA9F0 <= n <= 0xA9F9 || 0xAA50 <= n <= 0xAA59
    || 0xABF0 <= n <= 0xABF9 || 0xFF10 <= n <= 0xFF19 || 0x104A0 <= n <= 0x104A9 || 0x10D30 <= n <= 0x10D39
    || 0x110F0 <= n <= 0x110F9 || 0x111D0 <= n <= 0x111D9 || 0x112F0 <= n <= 0x112F9 || 0x11450 <= n <= 0x11459
    || 0x114D0 <= n <= 0x114D9 || 0x11650 <= n <= 0x11659 || 0x116C0 <= n <= 0x116C9 || 0x11730 <= n <= 0x11739
    || 0x118E0 <= n <= 0x118E9 || 0x11950 <= n <= 0x11959 || 0x11C50 <= n <= 0x11C59 || 0x11D50 <= n <= 0x11D59
    || 0x11DA0 <= n <= 0x11DA9 || 0x11F50 <= n <= 0x11F59 || 0x16A60 <= n <= 0x16A69 || 0x16AC0 <= n <= 0x16AC9
    || 0x16B50 <= n <= 0x16B59 || 0x1E140 <= n <= 0x1E149 || 0x1E2F0 <= n <= 0x1E2F9 || 0x1E4F0 <= n <= 0x1E4F9
    || 0x1E950 <= n <= 0x1E959 || 0x1FBF0 <= n <= 0x1FBF9
  }

  /** Blocks whose zero is six after one. */
  predicate StartsAtSix(n: int) {
    || 0x966 <= n <= 0x96F || 0x9E6 <= n <= 0x9EF || 0xA66 <= n <= 0xA6F || 0xAE6 <= n <= 0xAEF
    || 0xB66 <= n <= 0xB6F || 0xBE6 <= n <= 0xBEF || 0xC66 <= n <= 0xC6F || 0xCE6 <= n <= 0xCEF
    || 0xD66 <= n <= 0xD6F || 0xDE6 <= n <= 0xDEF || 0x1946 <= n <= 0x194F || 0x11066 <= n <= 0x1106F
    || 0x11136 <= n <= 0x1113F
  }

  /** The five runs of mathematical digits. */
  predicate Mathematical(n: int) {
    0x1D7CE <= n <= 0x1D7FF
  }

  /** `str.isdecimal`: the digits `int` reads. */
  predicate IsDecimal(c: char) {
    var n := c as int;
    StartsAtZero(n) || StartsAtSix(n) || Mathematical(n)
  }

  /** The superscripts, subscripts, circled and other digits that `isdigit` takes as well. */
  predicate IsOtherDigit(c: char) {
    var n := c as int;
    || 0xB2 <= n <= 0xB3 || n == 0xB9 || 0x1369 <= n <= 0x1371 || n == 0x19DA || n == 0x2070 || 0x2074 <= n <= 0x2079
    || 0x2080 <= n <= 0x2089 || 0x2460 <= n <= 0x2468 || 0x2474 <= n <= 0x247C || 0x2488 <= n <= 0x2490
    || n == 0x24EA || 0x24F5 <= n <= 0x24FD || n == 0x24FF || 0x2776 <= n <= 0x277E || 0x2780 <= n <= 0x2788
    || 0x278A <= n <= 0x2792 || 0x10A40 <= n <= 0x10A43 || 0x10E60 <= n <= 0x10E68 || 0x11052 <= n <= 0x1105A
    || 0x1F100 <= n <= 0x1F10A
  }

  /** `str.isdigit` of one character. */
  predicate IsDigit(c: char) {
    IsDecimal(c) || IsOtherDigit(c)
  }

  /** What a decimal digit is worth. */
  function Worth(c: char): nat
    requires IsDecimal(c)
  {
    var n := c as int;
    if Mathematical(n) then (n - 0x1D7CE) % 10 else if StartsAtZero(n) then n % 16 else (n - 6) % 16
  }

  predicate AllDigit(s: string) {
    forall i :: 0 <= i < |s| ==> IsDigit(s[i])
  }

  predicate AllDecimal(s: string) {
    forall i :: 0 <= i < |s| ==> IsDecimal(s[i])
  }

  function Value(s: string): nat
    requires AllDecimal(s)
  {
    if s == "" then 0 else 10 * Value(s[..|s| - 1]) + Worth(s[|s| - 1])
  }

  /** `sys.int_info.default_max_str_digits`. */
  const MAX_STR_DIGITS := 4300

  /** `int` accepts the digits; without this it raises ValueError. */
  predicate IntReads(digits: string) {
    AllDecimal(digits) && |digits| <= MAX_STR_DIGITS
  }

  /** No digit is white space, a dash or a line break. */
  lemma DigitIsNoSpace(c: char)
    requires IsDigit(c)
    ensures !IsSpace(c) && c != '-'
  {
  }

  lemma AsciiDigits(c: char)
    requires '0' <= c <= '9'
    ensures IsDecimal(c) && Worth(c) == c as int - 0x30
  {
  }

  lemma SuperscriptTwo()
    ensures IsDigit('\U{00B2}') && !IsDecimal('\U{00B2}')
  {
  }
}
