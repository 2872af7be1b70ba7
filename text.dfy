/**
 * String helpers shared by the services: decimal digits and the JavaScript
 * number-to-string conversion for integers, the JavaScript white-space class
 * (used by `String.prototype.trim` and the regular-expression class `\s`),
 * `trim`, `split(sep)[0]` and `Array.prototype.join`.
 */
module Text {

  import opened Wrappers

  predicate IsDigit(c: char) { '0' <= c <= '9' }

  predicate AllDigits(s: string) { forall i :: 0 <= i < |s| ==> IsDigit(s[i]) }

  function DigitValue(c: char): (d: nat)
    requires IsDigit(c)
    ensures d < 10
  {
    c as int - '0' as int
  }

  function DigitChar(d: nat): (c: char)
    requires d < 10
    ensures IsDigit(c) && DigitValue(c) == d
  {
    ('0' as int + d) as char
  }

  /** The value of a string of decimal digits, as `parseInt` reads it (no precision limit). */
  function DigitsValue(s: string): nat
    requires AllDigits(s)
  {
    if s == [] then 0 else DigitsValue(s[..|s| - 1]) * 10 + DigitValue(s[|s| - 1])
  }

  /** The decimal spelling of a natural number: digits only, no leading zero. */
  function NatToString(n: nat): (r: string)
    ensures |r| > 0 && AllDigits(r)
    ensures r[0] == '0' ==> r == "0"
  {
    if n < 10 then [DigitChar(n)] else NatToString(n / 10) + [DigitChar(n % 10)]
  }

  /** Reading the spelling back gives the number. */
  lemma {:induction false} NatToStringRoundTrip(n: nat)
    ensures DigitsValue(NatToString(n)) == n
  {
    if n >= 10 {
      var r := NatToString(n);
      assert r[..|r| - 1] == NatToString(n / 10);
      NatToStringRoundTrip(n / 10);
    }
  }

  /** `${i}` for an integer-valued JavaScript number. */
  function IntToString(i: int): (r: string)
  {
    if i < 0 then "-" + NatToString(-i) else NatToString(i)
  }

  /** Reads an optionally negative decimal integer; the inverse of IntToString. */
  function ParseInt(s: string): Option<int>
  {
    if |s| > 1 && s[0] == '-' && AllDigits(s[1..]) then Some(0 - (DigitsValue(s[1..]) as int))
    else if |s| > 0 && AllDigits(s) then Some(DigitsValue(s))
    else None
  }

  lemma IntToStringRoundTrip(i: int)
    ensures ParseInt(IntToString(i)) == Some(i)
  {
    var r := IntToString(i);
    if i < 0 {
      var digits := NatToString(-i);
      assert r[1..] == digits;
      NatToStringRoundTrip(-i);
      assert |r| > 1 && r[0] == '-' && AllDigits(r[1..]);
    } else {
      NatToStringRoundTrip(i);
      assert IsDigit(r[0]);
    }
  }

  /** JavaScript's WhiteSpace and LineTerminator code points: what `\s` and `trim` treat as blank. */
  predicate IsJsWhitespace(c: char)
  {
    var n := c as int;
    (0x09 <= n <= 0x0D) || n == 0x20 || n == 0xA0 || n == 0x1680 || (0x2000 <= n <= 0x200A) ||
    n == 0x2028 || n == 0x2029 || n == 0x202F || n == 0x205F || n == 0x3000 || n == 0xFEFF
  }

  /** How many blanks open `s`. */
  function LeadingBlanks(s: string): (n: nat)
    ensures n <= |s|
    ensures forall k :: 0 <= k < n ==> IsJsWhitespace(s[k])
    ensures n == |s| || !IsJsWhitespace(s[n])
  {
    if s != [] && IsJsWhitespace(s[0]) then
      var n := 1 + LeadingBlanks(s[1..]);
      assert forall k :: 1 <= k < n ==> s[k] == s[1..][k - 1];
      n
    else 0
  }

  /** How many blanks close `s`. */
  function TrailingBlanks(s: string): (n: nat)
    ensures n <= |s|
    ensures forall k :: |s| - n <= k < |s| ==> IsJsWhitespace(s[k])
    ensures n == |s| || !IsJsWhitespace(s[|s| - n - 1])
  {
    if s != [] && IsJsWhitespace(s[|s| - 1]) then
      var n := 1 + TrailingBlanks(s[..|s| - 1]);
      assert forall k :: |s| - n <= k < |s| - 1 ==> s[k] == s[..|s| - 1][k];
      n
    else 0
  }

  /** `trimStart`: the suffix left once the leading blanks are gone. */
  function TrimStart(s: string): (r: string)
  {
    s[LeadingBlanks(s)..]
  }

  /** `trimEnd`: the prefix left once the trailing blanks are gone. */
  function TrimEnd(s: string): (r: string)
  {
    s[..|s| - TrailingBlanks(s)]
  }

  /** `String.prototype.trim`: the longest infix that neither starts nor ends with a blank. */
  function Trim(s: string): (r: string)
  {
    TrimEnd(TrimStart(s))
  }

  /** Trim keeps a contiguous piece of its input, and only blanks are cut on either side. */
  lemma TrimIsInfix(s: string)
    ensures var i := |s| - |TrimStart(s)|; Trim(s) == s[i..i + |Trim(s)|]
    ensures forall k :: 0 <= k < |s| - |TrimStart(s)| ==> IsJsWhitespace(s[k])
    ensures forall k :: |s| - |TrimStart(s)| + |Trim(s)| <= k < |s| ==> IsJsWhitespace(s[k])
    ensures Trim(s) == [] || (!IsJsWhitespace(Trim(s)[0]) && !IsJsWhitespace(Trim(s)[|Trim(s)| - 1]))
  {
    var a := LeadingBlanks(s);
    var t := s[a..];
    var b := TrailingBlanks(t);
    assert Trim(s) == s[a..][..|t| - b] == s[a..a + |t| - b];
    forall k | a + |t| - b <= k < |s| ensures IsJsWhitespace(s[k]) {
      assert s[k] == t[k - a];
    }
  }

  /** Leading blanks end inside `a` when `a` ends on a non-blank, so what follows `a` is kept whole. */
  lemma TrimStartAppend(a: string, b: string)
    requires a != [] && !IsJsWhitespace(a[|a| - 1])
    ensures TrimStart(a + b) == TrimStart(a) + b
  {
    var n := LeadingBlanks(a);
    assert n < |a|;
    assert forall k :: 0 <= k <= n ==> (a + b)[k] == a[k];
  }

  /** Trailing blanks start inside `b` when `b` starts on a non-blank, so what precedes `b` is kept whole. */
  lemma TrimEndPrepend(a: string, b: string)
    requires b != [] && !IsJsWhitespace(b[0])
    ensures TrimEnd(a + b) == a + TrimEnd(b)
  {
    var n := TrailingBlanks(b);
    assert n < |b|;
    assert forall k :: |b| - n - 1 <= k < |b| ==> (a + b)[|a| + k] == b[k];
    assert TrailingBlanks(a + b) == n;
    assert (a + b)[..|a + b| - n] == a + b[..|b| - n];
  }

  /** A run of blanks in front of text that does not start with a blank is trimmed away exactly. */
  lemma TrimStartBlanks(w: string, b: string)
    requires forall k :: 0 <= k < |w| ==> IsJsWhitespace(w[k])
    requires b == [] || !IsJsWhitespace(b[0])
    ensures TrimStart(w + b) == b
  {
    assert forall k :: 0 <= k < |w| ==> (w + b)[k] == w[k];
    assert b != [] ==> (w + b)[|w|] == b[0];
  }

  /** `s.split(sep)[0]`: the text before the first `sep`, or all of `s` without one. */
  function BeforeFirst(s: string, sep: char): (r: string)
    ensures |r| <= |s| && r == s[..|r|]
    ensures sep !in r
    ensures |r| < |s| ==> s[|r|] == sep
  {
    if s == [] then [] else if s[0] == sep then [] else [s[0]] + BeforeFirst(s[1..], sep)
  }

  /** `parts.join(sep)`. */
  function Join(parts: seq<string>, sep: string): string
  {
    if parts == [] then [] else if |parts| == 1 then parts[0] else parts[0] + sep + Join(parts[1..], sep)
  }

  /** Each part prefixed by `sep`, all concatenated: `"&a&b"` for `["a", "b"]`. */
  function PrefixEach(parts: seq<string>, sep: string): string
  {
    if parts == [] then [] else sep + parts[0] + PrefixEach(parts[1..], sep)
  }

  /** Joining with a separator and putting one separator in front is prefixing every part. */
  lemma {:induction false} JoinPrefixed(parts: seq<string>, sep: string)
    requires parts != []
    ensures sep + Join(parts, sep) == PrefixEach(parts, sep)
  {
    if |parts| > 1 {
      JoinPrefixed(parts[1..], sep);
    }
  }

  /** `s.startsWith(p, at)`. */
  predicate OccursAt(s: string, p: string, at: nat)
  {
    at + |p| <= |s| && s[at..at + |p|] == p
  }

  /** `s.indexOf(p, from)` when it is not -1. */
  function IndexOf(s: string, p: string, from: nat): (r: Option<nat>)
    decreases |s| - from
    ensures r.Some? ==> from <= r.value && OccursAt(s, p, r.value)
    ensures r.Some? ==> forall k :: from <= k < r.value ==> !OccursAt(s, p, k)
    ensures r.None? ==> forall k :: from <= k ==> !OccursAt(s, p, k)
  {
    if from + |p| > |s| then None
    else if OccursAt(s, p, from) then Some(from)
    else IndexOf(s, p, from + 1)
  }
}
