/**
  The few pieces of JavaScript string semantics the application relies on:
  the `\s` regular-expression class, `String.trim`, `parseInt(s, 10)` and
  `String.length`, which counts UTF-16 code units.
*/
module JsString {
  import opened Common

  /** ECMAScript WhiteSpace and LineTerminator code points: the `\s` class, and what `trim` and `parseInt` skip. */
  predicate IsSpace(c: char) {
    var n := c as int;
    n == 0x09 || n == 0x0A || n == 0x0B || n == 0x0C || n == 0x0D || n == 0x20 ||
    n == 0xA0 || n == 0x1680 || (0x2000 <= n <= 0x200A) || n == 0x2028 || n == 0x2029 ||
    n == 0x202F || n == 0x205F || n == 0x3000 || n == 0xFEFF
  }

  /** The `\d` class of a regular expression without the `u` flag: the ASCII digits only. */
  predicate IsDigit(c: char) {
    '0' <= c <= '9'
  }

  predicate AllDigits(s: string) {
    forall i :: 0 <= i < |s| ==> IsDigit(s[i])
  }

  function DigitValue(c: char): (d: nat)
    requires IsDigit(c)
    ensures d < 10
  {
    (c as int) - ('0' as int)
  }

  /** `s.replace(/\s/g, '')`: every whitespace character removed. */
  function RemoveSpaces(s: string): (r: string)
    ensures forall i :: 0 <= i < |r| ==> !IsSpace(r[i])
    ensures forall c :: c in r <==> c in s && !IsSpace(c)
    ensures (forall i :: 0 <= i < |s| ==> !IsSpace(s[i])) ==> r == s
  {
    NoSpacesUnchanged(s);
    Filter(s, (c: char) => !IsSpace(c))
  }

  lemma {:induction false} NoSpacesUnchanged(s: string)
    ensures (forall i :: 0 <= i < |s| ==> !IsSpace(s[i])) ==> Filter(s, (c: char) => !IsSpace(c)) == s
  {
    if |s| > 0 {
      NoSpacesUnchanged(s[1..]);
      assert s == [s[0]] + s[1..];
    }
  }

  /**
    Removal works piece by piece and keeps the order of what remains: a single
    character is dropped exactly when it is whitespace, and the result of a
    concatenation is the concatenation of the results.
  */
  lemma RemoveSpacesAppend(a: string, b: string)
    ensures RemoveSpaces(a + b) == RemoveSpaces(a) + RemoveSpaces(b)
    ensures |a| == 1 ==> RemoveSpaces(a) == if IsSpace(a[0]) then [] else a
  {
    FilterAppend(a, b, (c: char) => !IsSpace(c));
    if |a| == 1 {
      assert a[1..] == [];
    }
  }

  /** How many whitespace characters `s` starts with. */
  function LeadingSpaces(s: string): (k: nat)
    ensures k <= |s|
    ensures forall i :: 0 <= i < k ==> IsSpace(s[i])
    ensures k < |s| ==> !IsSpace(s[k])
  {
    if |s| > 0 && IsSpace(s[0]) then 1 + LeadingSpaces(s[1..]) else 0
  }

  /** How many whitespace characters `s` ends with. */
  function TrailingSpaces(s: string): (k: nat)
    ensures k <= |s|
    ensures forall i :: |s| - k <= i < |s| ==> IsSpace(s[i])
    ensures k < |s| ==> !IsSpace(s[|s| - k - 1])
  {
    if |s| > 0 && IsSpace(s[|s| - 1]) then 1 + TrailingSpaces(s[..|s| - 1]) else 0
  }

  /** `s` without its leading whitespace. */
  function TrimStart(s: string): (r: string)
    ensures |r| <= |s|
    ensures |r| > 0 ==> !IsSpace(r[0])
  {
    s[LeadingSpaces(s)..]
  }

  /**
    `s.trim()`: the slice of `s` left once the leading and the trailing whitespace are cut off;
    it is empty exactly when `s` is all whitespace.
  */
  function Trim(s: string): (r: string)
    ensures LeadingSpaces(s) + |r| <= |s| && r == s[LeadingSpaces(s)..LeadingSpaces(s) + |r|]
    ensures forall i :: LeadingSpaces(s) + |r| <= i < |s| ==> IsSpace(s[i])
    ensures |r| > 0 ==> !IsSpace(r[0]) && !IsSpace(r[|r| - 1])
    ensures (forall i :: 0 <= i < |s| ==> IsSpace(s[i])) <==> r == []
  {
    var t := TrimStart(s);
    t[..|t| - TrailingSpaces(t)]
  }

  /** A code point outside the Basic Multilingual Plane, which UTF-16 stores as a surrogate pair. */
  predicate IsAstral(c: char) {
    c as int > 0xFFFF
  }

  /** `s.length` in JavaScript: characters outside the Basic Multilingual Plane take two UTF-16 code units. */
  function Utf16Length(s: string): (n: nat)
    ensures |s| <= n <= 2 * |s|
  {
    if |s| == 0 then 0 else (if IsAstral(s[0]) then 2 else 1) + Utf16Length(s[1..])
  }

  /** The length is one code unit per character plus one more for each astral character. */
  lemma {:induction false} Utf16LengthCountsAstral(s: string)
    ensures Utf16Length(s) == |s| + Count(s, IsAstral)
  {
    if |s| > 0 {
      Utf16LengthCountsAstral(s[1..]);
    }
  }

  /** Lengths add up over concatenation; one character is one unit, or two when astral. */
  lemma {:induction false} Utf16LengthAppend(a: string, b: string)
    ensures Utf16Length(a + b) == Utf16Length(a) + Utf16Length(b)
    ensures |a| == 1 ==> Utf16Length(a) == if IsAstral(a[0]) then 2 else 1
  {
    if |a| > 0 {
      assert (a + b)[1..] == a[1..] + b;
      Utf16LengthAppend(a[1..], b);
    } else {
      assert a + b == b;
    }
  }

  /** Trimming whitespace around a single non-whitespace character leaves just that character. */
  lemma TrimAroundOne(pre: string, c: char, post: string)
    requires forall i :: 0 <= i < |pre| ==> IsSpace(pre[i])
    requires forall i :: 0 <= i < |post| ==> IsSpace(post[i])
    requires !IsSpace(c)
    ensures Trim(pre + [c] + post) == [c]
  {
    var s := pre + [c] + post;
    var k := LeadingSpaces(s);
    assert s[|pre|] == c;
    assert k == |pre|;
    var r := Trim(s);
    assert r != [];
    assert r[0] == c;
  }

  /** The longest prefix of `s` made of ASCII digits. */
  function LeadingDigits(s: string): (d: string)
    ensures |d| <= |s| && d == s[..|d|] && AllDigits(d)
    ensures |d| < |s| ==> !IsDigit(s[|d|])
  {
    if |s| > 0 && IsDigit(s[0]) then [s[0]] + LeadingDigits(s[1..]) else []
  }

  /** The decimal value of a digit string, most significant digit first. */
  function DigitsValue(d: string): nat
    requires AllDigits(d)
  {
    if |d| == 0 then 0 else DigitsValue(d[..|d| - 1]) * 10 + DigitValue(d[|d| - 1])
  }

  /** The result of JavaScript's `parseInt`: a number or NaN. Every comparison with NaN is false. */
  datatype JsInt = NaN | Int(v: int) {
    predicate Less(k: int) { Int? && v < k }
    predicate Greater(k: int) { Int? && v > k }
  }

  /** `parseInt(s, 10)`: skip leading whitespace, read an optional sign, then as many ASCII digits as there are. */
  function ParseInt(s: string): JsInt {
    var t := TrimStart(s);
    var negative := |t| > 0 && t[0] == '-';
    var rest := if |t| > 0 && (t[0] == '-' || t[0] == '+') then t[1..] else t;
    var d := LeadingDigits(rest);
    if |d| == 0 then NaN
    else if negative then Int(-(DigitsValue(d) as int))
    else Int(DigitsValue(d))
  }

  /** The decimal rendering of a natural number, without leading zeros. */
  function NatToDecimal(n: nat): (s: string)
    ensures |s| > 0 && AllDigits(s)
  {
    var c := ('0' as int + n % 10) as char;
    if n < 10 then [c] else NatToDecimal(n / 10) + [c]
  }

  lemma {:induction false} DigitsValueOfDecimal(n: nat)
    ensures DigitsValue(NatToDecimal(n)) == n
  {
    var s := NatToDecimal(n);
    if n >= 10 {
      DigitsValueOfDecimal(n / 10);
      assert s[..|s| - 1] == NatToDecimal(n / 10);
    }
  }

  lemma {:induction false} LeadingDigitsOfDigits(d: string, tail: string)
    requires AllDigits(d)
    requires |tail| > 0 ==> !IsDigit(tail[0])
    ensures LeadingDigits(d + tail) == d
  {
    if |d| == 0 {
      assert d + tail == tail;
    } else {
      assert (d + tail)[0] == d[0];
      assert (d + tail)[1..] == d[1..] + tail;
      LeadingDigitsOfDigits(d[1..], tail);
      assert [d[0]] + d[1..] == d;
    }
  }

  /** `parseInt` reads back the decimal rendering of any natural number. */
  lemma ParseIntRoundTrip(n: nat)
    ensures ParseInt(NatToDecimal(n)) == Int(n)
  {
    var s := NatToDecimal(n);
    ParseIntIgnoresTail(s, []);
    assert s + [] == s;
    DigitsValueOfDecimal(n);
  }

  /** `parseInt` stops at the first non-digit, so `"12abc"` reads as 12. */
  lemma ParseIntIgnoresTail(d: string, tail: string)
    requires |d| > 0 && AllDigits(d)
    requires |tail| > 0 ==> !IsDigit(tail[0])
    ensures ParseInt(d + tail) == Int(DigitsValue(d))
  {
    var s := d + tail;
    assert s[0] == d[0];
    assert LeadingSpaces(s) == 0;
    assert TrimStart(s) == s;
    LeadingDigitsOfDigits(d, tail);
  }

  /** A string with no digit after its whitespace and sign parses to NaN. */
  lemma ParseIntNaN(s: string)
    requires |s| > 0 && !IsSpace(s[0]) && !IsDigit(s[0]) && s[0] != '-' && s[0] != '+'
    ensures ParseInt(s) == NaN
  {
  }
}
