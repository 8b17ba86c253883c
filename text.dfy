/**
 * String and number helpers shared by the model: ASCII case mapping, whitespace
 * trimming, splitting and joining, substring search, decimal formatting and the
 * decimal subset of JavaScript's `Number(string)` and Python's `float(str)`.
 */
module Text {
  import opened Wrappers

  // ---------------------------------------------------------------------------
  // Characters

  /** The whitespace that `trim()`, `strip()` and `\s` remove (ASCII subset). */
  predicate IsSpace(c: char) {
    c == ' ' || c == '\t' || c == '\n' || c == '\r' || c == '\U{000B}' || c == '\U{000C}'
  }

  predicate IsUpperAscii(c: char) { 'A' <= c <= 'Z' }
  predicate IsLowerAscii(c: char) { 'a' <= c <= 'z' }
  predicate IsDigit(c: char) { '0' <= c <= '9' }

  function LowerChar(c: char): (r: char)
    ensures !IsUpperAscii(r)
    ensures IsUpperAscii(c) || r == c
  {
    if IsUpperAscii(c) then (c as int + 32) as char else c
  }

  function UpperChar(c: char): (r: char)
    ensures !IsLowerAscii(r)
    ensures IsLowerAscii(c) || r == c
  {
    if IsLowerAscii(c) then (c as int - 32) as char else c
  }

  /** `toLowerCase()` / `lower()` on the ASCII letters. */
  function Lower(s: string): (r: string)
    ensures |r| == |s|
    ensures forall i :: 0 <= i < |s| ==> r[i] == LowerChar(s[i])
  {
    if s == [] then [] else [LowerChar(s[0])] + Lower(s[1..])
  }

  /** `toUpperCase()` on the ASCII letters. */
  function Upper(s: string): (r: string)
    ensures |r| == |s|
    ensures forall i :: 0 <= i < |s| ==> r[i] == UpperChar(s[i])
  {
    if s == [] then [] else [UpperChar(s[0])] + Upper(s[1..])
  }

  // ---------------------------------------------------------------------------
  // Trimming

  /** The number of whitespace characters `s` starts with. */
  function LeadingSpaces(s: string): (n: nat)
    ensures n <= |s|
    ensures forall j :: 0 <= j < n ==> IsSpace(s[j])
    ensures n == |s| || !IsSpace(s[n])
  {
    if s != [] && IsSpace(s[0]) then 1 + LeadingSpaces(s[1..]) else 0
  }

  /** The number of whitespace characters `s` ends with. */
  function TrailingSpaces(s: string): (n: nat)
    ensures n <= |s|
    ensures forall j :: |s| - n <= j < |s| ==> IsSpace(s[j])
    ensures n == |s| || !IsSpace(s[|s| - n - 1])
  {
    if s != [] && IsSpace(s[|s| - 1]) then 1 + TrailingSpaces(s[..|s| - 1]) else 0
  }

  function TrimStart(s: string): (r: string)
    ensures r == [] || !IsSpace(r[0])
    ensures exists k :: 0 <= k <= |s| && r == s[k..] && forall j :: 0 <= j < k ==> IsSpace(s[j])
  {
    var n := LeadingSpaces(s);
    assert 0 <= n <= |s| && s[n..] == s[n..] && forall j :: 0 <= j < n ==> IsSpace(s[j]);
    s[n..]
  }

  function TrimEnd(s: string): (r: string)
    ensures r == [] || !IsSpace(r[|r| - 1])
    ensures exists k :: 0 <= k <= |s| && r == s[..k] && forall j :: k <= j < |s| ==> IsSpace(s[j])
  {
    var k := |s| - TrailingSpaces(s);
    assert 0 <= k <= |s| && s[..k] == s[..k] && forall j :: k <= j < |s| ==> IsSpace(s[j]);
    s[..k]
  }

  /** `trim()` / `strip()`. */
  function Trim(s: string): string {
    TrimEnd(TrimStart(s))
  }

  /** A string with no whitespace at either end. */
  predicate IsTrimmed(s: string) {
    s == [] || (!IsSpace(s[0]) && !IsSpace(s[|s| - 1]))
  }

  lemma TrimStartOfTrimmed(s: string)
    requires s == [] || !IsSpace(s[0])
    ensures TrimStart(s) == s
  {
  }

  lemma TrimEndOfTrimmed(s: string)
    requires s == [] || !IsSpace(s[|s| - 1])
    ensures TrimEnd(s) == s
  {
  }

  lemma TrimEndKeepsStart(s: string)
    requires s == [] || !IsSpace(s[0])
    ensures TrimEnd(s) == [] || !IsSpace(TrimEnd(s)[0])
  {
    var k :| 0 <= k <= |s| && TrimEnd(s) == s[..k] && forall j :: k <= j < |s| ==> IsSpace(s[j]);
    if k > 0 {
      assert TrimEnd(s)[0] == s[0];
    }
  }

  /** What `trim()` returns has no whitespace at either end, and trimming again changes nothing. */
  lemma TrimIsTrimmed(s: string)
    ensures IsTrimmed(Trim(s))
    ensures Trim(Trim(s)) == Trim(s)
  {
    TrimEndKeepsStart(TrimStart(s));
    var t := Trim(s);
    TrimStartOfTrimmed(t);
    TrimEndOfTrimmed(t);
  }

  lemma TrimOfTrimmed(s: string)
    requires IsTrimmed(s)
    ensures Trim(s) == s
  {
    TrimStartOfTrimmed(s);
    TrimEndOfTrimmed(s);
  }

  /** A string trims to "" exactly when it is all whitespace. */
  lemma TrimEmptyIff(s: string)
    ensures Trim(s) == [] <==> forall i :: 0 <= i < |s| ==> IsSpace(s[i])
  {
    var n := LeadingSpaces(s);
    var t := TrimStart(s);
    assert t == s[n..];
    var m := TrailingSpaces(t);
    assert Trim(s) == t[..|t| - m];
    if Trim(s) == [] {
      assert n == |s|;
    } else {
      assert !IsSpace(s[n]);
    }
  }

  // ---------------------------------------------------------------------------
  // Searching, splitting, joining

  predicate IsPrefix(p: string, s: string) {
    |p| <= |s| && s[..|p|] == p
  }

  /** `s.includes(sub)` / `sub in s`. */
  predicate Contains(s: string, sub: string) {
    exists i | 0 <= i <= |s| - |sub| :: IsPrefix(sub, s[i..])
  }

  /** The index of the first `c` in `s`, or `|s|` when there is none. */
  function IndexOf(s: string, c: char): (i: nat)
    ensures i <= |s|
    ensures i < |s| ==> s[i] == c
    ensures forall j :: 0 <= j < i ==> s[j] != c
  {
    if s == [] then 0 else if s[0] == c then 0 else 1 + IndexOf(s[1..], c)
  }

  /** `s.split(c)` for a one-character separator: one more piece than there are separators. */
  function Split(s: string, c: char): (parts: seq<string>)
    ensures |parts| >= 1
    ensures forall k :: 0 <= k < |parts| ==> c !in parts[k]
    decreases |s|
  {
    var i := IndexOf(s, c);
    if i == |s| then
      [s]
    else
      assert c !in s[..i];
      [s[..i]] + Split(s[i + 1..], c)
  }

  /** `parts.join(sep)`. */
  function Join(parts: seq<string>, sep: string): string {
    if parts == [] then ""
    else if |parts| == 1 then parts[0]
    else parts[0] + sep + Join(parts[1..], sep)
  }

  /** Joining the pieces of a split with the same separator gives back the string. */
  lemma {:induction false} JoinSplit(s: string, c: char)
    ensures Join(Split(s, c), [c]) == s
    decreases |s|
  {
    var i := IndexOf(s, c);
    if i < |s| {
      var rest := Split(s[i + 1..], c);
      JoinSplit(s[i + 1..], c);
      SplitAt(s, c, i);
      JoinCons(s[..i], rest, [c]);
      assert s == s[..i] + [c] + s[i + 1..];
    }
  }

  /** Splitting at the first separator: the text before it, then the pieces of the text after it. */
  lemma SplitAt(s: string, c: char, i: nat)
    requires i == IndexOf(s, c) && i < |s|
    ensures Split(s, c) == [s[..i]] + Split(s[i + 1..], c)
  {
  }

  /** Joining a list with a first piece in front puts that piece and the separator first. */
  lemma JoinCons(head: string, rest: seq<string>, sep: string)
    requires |rest| >= 1
    ensures Join([head] + rest, sep) == head + sep + Join(rest, sep)
  {
    assert ([head] + rest)[0] == head;
    assert ([head] + rest)[1..] == rest;
  }

  // ---------------------------------------------------------------------------
  // Decimal numbers

  function DigitChar(d: nat): (c: char)
    requires d < 10
    ensures IsDigit(c)
  {
    ('0' as int + d) as char
  }

  function DigitValue(c: char): (d: nat)
    requires IsDigit(c)
    ensures d < 10 && DigitChar(d) == c
  {
    c as int - '0' as int
  }

  predicate AllDigits(s: string) {
    forall i :: 0 <= i < |s| ==> IsDigit(s[i])
  }

  /** The value of a string of decimal digits ("" reads as 0). */
  function ParseDigits(s: string): nat
    requires AllDigits(s)
  {
    if s == [] then 0 else ParseDigits(s[..|s| - 1]) * 10 + DigitValue(s[|s| - 1])
  }

  /** `n.toString()` for a natural number: decimal digits, no leading zeros. */
  function NatToString(n: nat): (s: string)
    ensures |s| >= 1 && AllDigits(s)
    ensures n < 10 <==> |s| == 1
    ensures |s| > 1 ==> s[0] != '0'
  {
    if n < 10 then [DigitChar(n)] else NatToString(n / 10) + [DigitChar(n % 10)]
  }

  /** Reading the digits of a number back gives the number. */
  lemma {:induction false} ParseNatToString(n: nat)
    ensures ParseDigits(NatToString(n)) == n
  {
    if n >= 10 {
      ParseNatToString(n / 10);
      var s := NatToString(n);
      assert s[..|s| - 1] == NatToString(n / 10);
    }
  }

  /** `i.toString()` for an integer. */
  function IntToString(i: int): string {
    if i < 0 then "-" + NatToString(-i) else NatToString(i)
  }

  /** `s.padStart(2, "0")`. */
  function PadStart2(s: string): (r: string)
    ensures |r| >= 2
  {
    if |s| == 0 then "00" else if |s| == 1 then "0" + s else s
  }

  /** The six-digit truncated decimal expansion of a fraction in [0, 1). */
  function FractionDigits(f: real, k: nat): string
    requires 0.0 <= f < 1.0
    decreases k
  {
    if k == 0 || f == 0.0 then ""
    else
      var d := (f * 10.0).Floor;
      [DigitChar(d)] + FractionDigits(f * 10.0 - d as real, k - 1)
  }

  /**
   * Number-to-string conversion as the model states it: exact for integers;
   * other values print the integer part, a point and the first six digits of
   * the fraction, cut rather than rounded (JavaScript prints the shortest
   * round-tripping form instead).
   */
  function NumberText(x: real): string
    decreases if x < 0.0 then 1 else 0
  {
    if x == x.Floor as real then IntToString(x.Floor)
    else if x < 0.0 then "-" + NumberText(-x)
    else NatToString(x.Floor) + "." + FractionDigits(x - x.Floor as real, 6)
  }

  /** JavaScript's `Math.round`: halves go up. */
  function JsRound(x: real): int {
    (x + 0.5).Floor
  }

  predicate IsWhole(x: real) {
    x == x.Floor as real
  }

  lemma FloorUnique(y: real, n: int)
    requires n as real <= y < n as real + 1.0
    ensures y.Floor == n
  {
  }

  /** Rounding a whole number gives that number back. */
  lemma JsRoundWhole(x: real)
    requires IsWhole(x)
    ensures JsRound(x) as real == x
  {
    FloorUnique(x + 0.5, x.Floor);
  }

  /** Truncation toward zero, as in Python's `int(float)`. */
  function Truncate(x: real): int {
    if x >= 0.0 then x.Floor else -((-x).Floor)
  }

  /** JavaScript's `%`: the remainder has the sign of the dividend. */
  function JsRem(a: real, b: real): real
    requires b != 0.0
  {
    a - b * Truncate(a / b) as real
  }

  /** The value of digits `i` and fraction digits `f` (either may be empty). */
  function DecimalValue(i: string, f: string): real
    requires AllDigits(i) && AllDigits(f)
  {
    ParseDigits(i) as real + FractionValue(f)
  }

  /** The value of the digits after a decimal point: "25" is 0.25. */
  function FractionValue(f: string): real
    requires AllDigits(f)
  {
    if f == [] then 0.0 else (DigitValue(f[0]) as real + FractionValue(f[1..])) / 10.0
  }

  /**
   * An unsigned decimal literal: digits with at most one point and at least one
   * digit ("12", "1.5", ".5", "5.").
   */
  function UnsignedDecimal(s: string): Option<real> {
    var p := IndexOf(s, '.');
    var intPart := s[..p];
    var fracPart := if p < |s| then s[p + 1..] else "";
    if (p < |s| && '.' in fracPart) || !AllDigits(intPart) || !AllDigits(fracPart)
       || |intPart| + |fracPart| == 0
    then None
    else Some(DecimalValue(intPart, fracPart))
  }

  /** An optionally signed decimal literal with no surrounding whitespace. */
  function SignedDecimal(t: string): Option<real> {
    if t != [] && (t[0] == '-' || t[0] == '+') then
      match UnsignedDecimal(t[1..])
      case Some(v) => Some(if t[0] == '-' then -v else v)
      case None => None
    else UnsignedDecimal(t)
  }

  /** JavaScript's `Number(s)`; `None` stands for NaN. A blank string is 0. */
  function JsNumber(s: string): Option<real> {
    var t := Trim(s);
    if t == [] then Some(0.0) else SignedDecimal(t)
  }

  /** Python's `float(s)`; `None` stands for the ValueError it raises. */
  function PyFloat(s: string): Option<real> {
    var t := Trim(s);
    if t == [] then None else SignedDecimal(t)
  }

  lemma IndexOfAbsent(s: string, c: char)
    requires c !in s
    ensures IndexOf(s, c) == |s|
  {
  }

  /** A non-empty string of digits reads as its decimal value. */
  lemma JsNumberOfDigitString(s: string)
    requires |s| >= 1 && AllDigits(s)
    ensures JsNumber(s) == Some(ParseDigits(s) as real)
  {
    assert !IsSpace(s[0]) && !IsSpace(s[|s| - 1]);
    TrimOfTrimmed(s);
    assert '.' !in s by {
      forall i | 0 <= i < |s| ensures s[i] != '.' { assert IsDigit(s[i]); }
    }
    IndexOfAbsent(s, '.');
    assert s[..|s|] == s;
    assert !(s[0] == '-' || s[0] == '+') by { assert IsDigit(s[0]); }
  }

  /** The digits of a number read back as the same number. */
  lemma JsNumberOfDigits(n: nat)
    ensures JsNumber(NatToString(n)) == Some(n as real)
  {
    JsNumberOfDigitString(NatToString(n));
    ParseNatToString(n);
  }

  /** A leading zero is read through: "05" is 5. */
  lemma JsNumberOfPadded(n: nat)
    requires n < 100
    ensures JsNumber(PadStart2(NatToString(n))) == Some(n as real)
  {
    if n >= 10 {
      JsNumberOfDigits(n);
    } else {
      assert NatToString(n) == [DigitChar(n)];
      assert PadStart2(NatToString(n)) == "0" + [DigitChar(n)] == ['0', DigitChar(n)];
      JsNumberOfPaddedDigit(n);
    }
  }

  lemma JsNumberOfPaddedDigit(n: nat)
    requires n < 10
    ensures JsNumber(['0', DigitChar(n)]) == Some(n as real)
  {
    var s := ['0', DigitChar(n)];
    JsNumberOfDigitString(s);
    assert ParseDigits(s) == n by {
      assert s[..1] == "0" && "0"[..0] == "";
      assert ParseDigits("0") == 0;
      assert DigitValue(DigitChar(n)) == n;
    }
  }
}
