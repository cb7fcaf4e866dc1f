/**
 * The few pieces of Python's string behaviour the bot relies on: `str(int)`,
 * `int(str)`, `str.strip()`, `str.split(sep)` and `sep.join(parts)`.
 */
module Strings {
  import opened Wrappers

  predicate IsDigit(c: char) { '0' <= c <= '9' }

  predicate AllDigits(s: string) { forall i :: 0 <= i < |s| ==> IsDigit(s[i]) }

  function DigitChar(d: nat): (c: char)
    requires d < 10
    ensures IsDigit(c)
  {
    (('0' as int) + d) as char
  }

  function DigitValue(c: char): (d: nat)
    requires IsDigit(c)
    ensures d < 10
  {
    (c as int) - ('0' as int)
  }

  /** The decimal numeral of `n`, most significant digit first, no leading zeros. */
  function NatToString(n: nat): (s: string)
    ensures |s| >= 1 && AllDigits(s)
    decreases n
  {
    if n < 10 then [DigitChar(n)] else NatToString(n / 10) + [DigitChar(n % 10)]
  }

  /** Python's `str(i)` for an integer. */
  function IntToString(i: int): (s: string)
    ensures |s| >= 1
  {
    if i < 0 then "-" + NatToString(-i) else NatToString(i)
  }

  /**
   * The value of the decimal digits of `s`, leading zeros allowed as in `int("007")`.
   * Any other character (in a digit group, only the `_` separator) adds nothing.
   */
  function DigitsValue(s: string): nat
    decreases |s|
  {
    if s == [] then 0
    else if IsDigit(s[|s| - 1]) then DigitsValue(s[..|s| - 1]) * 10 + DigitValue(s[|s| - 1])
    else DigitsValue(s[..|s| - 1])
  }

  lemma {:induction false} NatToStringValue(n: nat)
    ensures DigitsValue(NatToString(n)) == n
    decreases n
  {
    if n >= 10 {
      NatToStringValue(n / 10);
      var s := NatToString(n / 10) + [DigitChar(n % 10)];
      assert s[..|s| - 1] == NatToString(n / 10);
    }
  }

  /** The characters Python's `str.isspace()` accepts, hence what `strip()` and `int()` drop. */
  predicate IsSpace(c: char) {
    || c == ' ' || ('\t' <= c <= '\r') || ('\U{1c}' <= c <= '\U{1f}') || c == '\U{85}' || c == '\U{a0}'
    || c == '\U{1680}' || ('\U{2000}' <= c <= '\U{200a}') || c == '\U{2028}' || c == '\U{2029}'
    || c == '\U{202f}' || c == '\U{205f}' || c == '\U{3000}'
  }

  predicate AllSpace(s: string) { forall i :: 0 <= i < |s| ==> IsSpace(s[i]) }

  /** How many whitespace characters `s` starts with. */
  function LeadingSpaces(s: string): (k: nat)
    ensures k <= |s|
    ensures forall i :: 0 <= i < k ==> IsSpace(s[i])
    ensures k < |s| ==> !IsSpace(s[k])
    decreases |s|
  {
    if |s| > 0 && IsSpace(s[0]) then
      var k := LeadingSpaces(s[1..]);
      assert forall i :: 1 <= i < k + 1 ==> s[i] == s[1..][i - 1];
      k + 1
    else 0
  }

  /** How many whitespace characters `s` ends with. */
  function TrailingSpaces(s: string): (k: nat)
    ensures k <= |s|
    ensures forall i :: |s| - k <= i < |s| ==> IsSpace(s[i])
    ensures k < |s| ==> !IsSpace(s[|s| - 1 - k])
    decreases |s|
  {
    if |s| > 0 && IsSpace(s[|s| - 1]) then
      var k := TrailingSpaces(s[..|s| - 1]);
      assert forall i :: |s| - 1 - k <= i < |s| - 1 ==> s[i] == s[..|s| - 1][i];
      k + 1
    else 0
  }

  /** Python's `s.strip()`: what lies between the leading and the trailing whitespace. */
  function Strip(s: string): (r: string)
    ensures r == [] || (!IsSpace(r[0]) && !IsSpace(r[|r| - 1]))
    ensures r == [] <==> AllSpace(s)
  {
    var a := LeadingSpaces(s);
    var b := TrailingSpaces(s);
    StripBounds(s, a, b);
    if a == |s| then [] else s[a..|s| - b]
  }

  /** The leading and the trailing whitespace overlap only when `s` is all whitespace. */
  lemma StripBounds(s: string, a: nat, b: nat)
    requires a <= |s| && (forall i :: 0 <= i < a ==> IsSpace(s[i])) && (a < |s| ==> !IsSpace(s[a]))
    requires b <= |s| && (forall i :: |s| - b <= i < |s| ==> IsSpace(s[i])) && (b < |s| ==> !IsSpace(s[|s| - 1 - b]))
    ensures a == |s| <==> AllSpace(s)
    ensures a < |s| ==> a < |s| - b && !IsSpace(s[|s| - 1 - b])
  {
  }

  lemma {:induction false} StripUnchanged(s: string)
    requires s == [] || (!IsSpace(s[0]) && !IsSpace(s[|s| - 1]))
    ensures Strip(s) == s
  {
  }

  /** Digits with single underscores between them, as Python's `int()` accepts ("1_000"). */
  predicate IsDigitGroup(s: string) {
    && |s| > 0 && IsDigit(s[0]) && IsDigit(s[|s| - 1])
    && (forall i :: 0 <= i < |s| ==> IsDigit(s[i]) || s[i] == '_')
    && (forall i :: 0 <= i < |s| - 1 ==> s[i] == '_' ==> s[i + 1] != '_')
  }

  /** Python's `int(s)` in base 10 (ASCII digits only): `None` stands for the ValueError it raises. */
  function PyInt(s: string): Option<int> {
    ParseStripped(Strip(s))
  }

  /** What `int()` makes of an already stripped string: an optional sign, then a digit group. */
  function ParseStripped(t: string): Option<int> {
    if |t| > 0 && (t[0] == '-' || t[0] == '+') then
      match ParseGroup(t[1..])
        case None => None
        case Some(v) => Some(if t[0] == '-' then -(v as int) else v as int)
    else match ParseGroup(t)
      case None => None
      case Some(v) => Some(v as int)
  }

  /** The value of a digit group, underscores skipped; None for anything else. */
  function ParseGroup(g: string): Option<nat> {
    if IsDigitGroup(g) then Some(DigitsValue(g)) else None
  }

  /** A plain run of digits is a digit group worth its digits. */
  lemma GroupOfDigits(d: string)
    requires |d| >= 1 && AllDigits(d)
    ensures ParseGroup(d) == Some(DigitsValue(d))
  {
    DigitsAreDigitGroup(d);
  }

  lemma {:induction false} DigitsAreDigitGroup(s: string)
    requires |s| >= 1 && AllDigits(s)
    ensures IsDigitGroup(s)
  {
  }

  lemma DigitIsNotSpace(c: char)
    requires IsDigit(c)
    ensures !IsSpace(c) && c != '-' && c != '+'
  {
  }

  /** With no whitespace at either end, `int()` parses the string as it is. */
  lemma PyIntOfStripped(s: string)
    requires s == [] || (!IsSpace(s[0]) && !IsSpace(s[|s| - 1]))
    ensures PyInt(s) == ParseStripped(s)
  {
    StripUnchanged(s);
  }

  lemma ParseDigits(d: string)
    requires |d| >= 1 && AllDigits(d)
    ensures ParseStripped(d) == Some(DigitsValue(d) as int)
  {
    GroupOfDigits(d);
    DigitIsNotSpace(d[0]);
  }

  lemma ParseNegative(d: string)
    requires |d| >= 1 && AllDigits(d)
    ensures ParseStripped("-" + d) == Some(-(DigitsValue(d) as int))
  {
    assert ("-" + d)[1..] == d;
    GroupOfDigits(d);
  }

  /** A plain numeral parses to its value. */
  lemma DigitsParse(s: string)
    requires |s| >= 1 && AllDigits(s)
    ensures PyInt(s) == Some(DigitsValue(s) as int)
  {
    DigitIsNotSpace(s[0]);
    DigitIsNotSpace(s[|s| - 1]);
    PyIntOfStripped(s);
    ParseDigits(s);
  }

  lemma NatToStringRoundTrip(n: nat)
    ensures PyInt(NatToString(n)) == Some(n)
  {
    DigitsParse(NatToString(n));
    NatToStringValue(n);
  }

  lemma {:induction false} NegativeNumeral(d: string)
    requires |d| >= 1 && AllDigits(d)
    ensures PyInt("-" + d) == Some(-(DigitsValue(d) as int))
  {
    var s := "-" + d;
    DigitIsNotSpace(d[|d| - 1]);
    assert s[0] == '-' && s[|s| - 1] == d[|d| - 1];
    PyIntOfStripped(s);
    ParseNegative(d);
  }

  /** `int(str(i)) == i` for every integer. */
  lemma {:induction false} IntToStringRoundTrip(i: int)
    ensures PyInt(IntToString(i)) == Some(i)
  {
    if i < 0 {
      var n: nat := -i;
      var d := NatToString(n);
      NatToStringValue(n);
      NegativeNumeral(d);
      assert IntToString(i) == "-" + d;
    } else {
      NatToStringRoundTrip(i);
    }
  }

  /** Python's `s.split(sep)` for a one-character separator: never empty, keeps empty pieces. */
  function Split(s: string, sep: char): (r: seq<string>)
    ensures |r| >= 1
    decreases |s|
  {
    if s == [] then [""]
    else
      var rest := Split(s[1..], sep);
      if s[0] == sep then [""] + rest else [[s[0]] + rest[0]] + rest[1..]
  }

  lemma {:induction false} SplitNoSeparator(s: string, sep: char)
    requires sep !in s
    ensures Split(s, sep) == [s]
    decreases |s|
  {
    if s != [] {
      SplitNoSeparator(s[1..], sep);
      assert [s[0]] + s[1..] == s;
    }
  }

  /** Splitting at the first separator: the piece before it, then the split of the rest. */
  lemma {:induction false} SplitAtSeparator(a: string, sep: char, b: string)
    requires sep !in a
    ensures Split(a + [sep] + b, sep) == [a] + Split(b, sep)
    decreases |a|
  {
    var s := a + [sep] + b;
    if a == [] {
      assert s[1..] == b;
    } else {
      assert s[1..] == a[1..] + [sep] + b;
      SplitAtSeparator(a[1..], sep, b);
      assert [a[0]] + a[1..] == a;
    }
  }

  /** Python's `sep.join(parts)`. */
  function Join(parts: seq<string>, sep: char): string
    decreases |parts|
  {
    if |parts| == 0 then ""
    else if |parts| == 1 then parts[0]
    else parts[0] + [sep] + Join(parts[1..], sep)
  }

  /** `s.split(sep)` undoes `sep.join(parts)` when no part holds the separator. */
  lemma {:induction false} SplitJoin(parts: seq<string>, sep: char)
    requires |parts| >= 1
    requires forall j :: 0 <= j < |parts| ==> sep !in parts[j]
    ensures Split(Join(parts, sep), sep) == parts
    decreases |parts|
  {
    if |parts| == 1 {
      SplitNoSeparator(parts[0], sep);
    } else {
      SplitAtSeparator(parts[0], sep, Join(parts[1..], sep));
      SplitJoin(parts[1..], sep);
    }
  }

  /** Every piece of a split is made of characters of the input other than the separator. */
  lemma {:induction false} SplitPiecesOfBlank(s: string, sep: char)
    requires forall i :: 0 <= i < |s| ==> s[i] == sep || IsSpace(s[i])
    ensures forall j :: 0 <= j < |Split(s, sep)| ==> AllSpace(Split(s, sep)[j])
    decreases |s|
  {
    if s != [] {
      SplitPiecesOfBlank(s[1..], sep);
    }
  }

  /** A decimal numeral, signed or not, holds neither an underscore, a comma nor a space. */
  lemma IntToStringChars(i: int)
    ensures forall k :: 0 <= k < |IntToString(i)| ==> IntToString(i)[k] == '-' || IsDigit(IntToString(i)[k])
  {
  }
}
