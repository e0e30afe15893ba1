/**
 * The JavaScript string built-ins the bot relies on, on `seq<char>`:
 * `String.prototype.replace` with a string pattern, `trim`, `split(' ')`,
 * `String(n)` for integers and `padStart`.
 */
module Text {

  // ---------------------------------------------------------------------------
  // replace(pattern, '') : removal of the first occurrence of a pattern
  // ---------------------------------------------------------------------------

  /** `pat` occurs in `s` starting at index `i`. */
  predicate OccursAt(s: string, pat: string, i: nat) {
    i + |pat| <= |s| && s[i..i + |pat|] == pat
  }

  /** `s.replace(pat, '')`: the first occurrence of `pat` is cut out; without one, `s` is returned. */
  function RemoveFirst(s: string, pat: string): (r: string)
    requires pat != []
    decreases |s|
  {
    if |s| < |pat| then s
    else if s[..|pat|] == pat then s[|pat|..]
    else [s[0]] + RemoveFirst(s[1..], pat)
  }

  /** A string that starts with the pattern loses exactly that prefix. */
  lemma RemoveFirstOfPrefixed(pat: string, rest: string)
    requires pat != []
    ensures RemoveFirst(pat + rest, pat) == rest
  {
    assert (pat + rest)[..|pat|] == pat;
    assert (pat + rest)[|pat|..] == rest;
  }

  /** A string in which the pattern does not occur comes back unchanged. */
  lemma {:induction false} RemoveFirstAbsent(s: string, pat: string)
    requires pat != []
    requires forall i: nat :: !OccursAt(s, pat, i)
    ensures RemoveFirst(s, pat) == s
    decreases |s|
  {
    if |s| < |pat| {
    } else {
      assert !OccursAt(s, pat, 0);
      assert s[..|pat|] != pat;
      forall i: nat ensures !OccursAt(s[1..], pat, i) {
        assert !OccursAt(s, pat, i + 1);
        if i + |pat| <= |s[1..]| {
          assert s[1..][i..i + |pat|] == s[i + 1..i + 1 + |pat|];
        }
      }
      RemoveFirstAbsent(s[1..], pat);
      assert [s[0]] + s[1..] == s;
    }
  }

  // ---------------------------------------------------------------------------
  // trim()
  // ---------------------------------------------------------------------------

  /**
   * The code points `trim` removes: the WhiteSpace and LineTerminator
   * productions of ECMAScript (sections 12.2 and 12.3 of ECMA-262),
   * that is TAB, VT, FF, SP, NBSP, ZWNBSP, LF, CR, LS, PS and the
   * Unicode space separators (category Zs).
   */
  predicate IsWhitespace(c: char) {
    || c == '\t' || c == '\n' || c == '\U{000B}' || c == '\U{000C}' || c == '\r'
    || c == ' ' || c == '\U{00A0}' || c == '\U{1680}'
    || ('\U{2000}' <= c <= '\U{200A}')
    || c == '\U{2028}' || c == '\U{2029}' || c == '\U{202F}' || c == '\U{205F}'
    || c == '\U{3000}' || c == '\U{FEFF}'
  }

  /** Where `trim` starts: the first index at or after `i` that is not whitespace (or the end). */
  function TrimStartIndex(s: string, i: nat): (k: nat)
    requires i <= |s|
    ensures i <= k <= |s|
    ensures forall m :: i <= m < k ==> IsWhitespace(s[m])
    ensures k == |s| || !IsWhitespace(s[k])
    decreases |s| - i
  {
    if i < |s| && IsWhitespace(s[i]) then TrimStartIndex(s, i + 1) else i
  }

  /** Where `trim` ends: the last index, down from `j` to no lower than `lo`, after a non-whitespace character. */
  function TrimEndIndex(s: string, lo: nat, j: nat): (k: nat)
    requires lo <= j <= |s|
    ensures lo <= k <= j
    ensures forall m :: k <= m < j ==> IsWhitespace(s[m])
    ensures k == lo || !IsWhitespace(s[k - 1])
    decreases j
  {
    if lo < j && IsWhitespace(s[j - 1]) then TrimEndIndex(s, lo, j - 1) else j
  }

  /**
   * `s.trim()`: a slice of `s` that neither starts nor ends with whitespace,
   * cut out of whitespace only.
   */
  function Trim(s: string): (r: string)
    ensures r == [] || (!IsWhitespace(r[0]) && !IsWhitespace(r[|r| - 1]))
    ensures var i := TrimStartIndex(s, 0);
            && i + |r| <= |s| && r == s[i..i + |r|]
            && (forall k :: 0 <= k < i ==> IsWhitespace(s[k]))
            && (forall k :: i + |r| <= k < |s| ==> IsWhitespace(s[k]))
  {
    var i := TrimStartIndex(s, 0);
    var j := TrimEndIndex(s, i, |s|);
    s[i..j]
  }

  /** A string without whitespace at either end is left as it is by `trim`. */
  lemma TrimOfTrimmed(s: string)
    requires s == [] || (!IsWhitespace(s[0]) && !IsWhitespace(s[|s| - 1]))
    ensures Trim(s) == s
  {
  }

  // ---------------------------------------------------------------------------
  // split(sep) and its inverse, join(sep)
  // ---------------------------------------------------------------------------

  /** `parts.join(sep)`. */
  function Join(parts: seq<string>, sep: char): string
    requires |parts| >= 1
  {
    if |parts| == 1 then parts[0] else parts[0] + [sep] + Join(parts[1..], sep)
  }

  /** `s.split(sep)` for a one-character separator: never empty, `"".split(sep) == [""]`. */
  function Split(s: string, sep: char): (parts: seq<string>)
    ensures |parts| >= 1
    ensures forall i :: 0 <= i < |parts| ==> sep !in parts[i]
  {
    if s == [] then [""]
    else if s[0] == sep then [""] + Split(s[1..], sep)
    else
      var rest := Split(s[1..], sep);
      [[s[0]] + rest[0]] + rest[1..]
  }

  lemma JoinConsHead(c: char, u: string, parts: seq<string>, sep: char)
    requires |parts| >= 1
    ensures Join([[c] + u] + parts[1..], sep) == [c] + Join([u] + parts[1..], sep)
  {
    var p := [[c] + u] + parts[1..];
    var q := [u] + parts[1..];
    if |parts| > 1 {
      assert p[1..] == q[1..];
    }
  }

  /** Joining the pieces of a split gives the original string back. */
  lemma {:induction false} JoinSplit(s: string, sep: char)
    ensures Join(Split(s, sep), sep) == s
    decreases |s|
  {
    if s == [] {
    } else if s[0] == sep {
      JoinSplit(s[1..], sep);
      var p := [""] + Split(s[1..], sep);
      assert p[1..] == Split(s[1..], sep);
      assert [s[0]] + s[1..] == s;
    } else {
      var rest := Split(s[1..], sep);
      JoinSplit(s[1..], sep);
      JoinConsHead(s[0], rest[0], rest, sep);
      assert [rest[0]] + rest[1..] == rest;
      assert [s[0]] + s[1..] == s;
    }
  }

  /** Conversely, pieces free of the separator are exactly what splitting their join gives. */
  lemma {:induction false} SplitJoin(parts: seq<string>, sep: char)
    requires |parts| >= 1
    requires forall i :: 0 <= i < |parts| ==> sep !in parts[i]
    ensures Split(Join(parts, sep), sep) == parts
    decreases |Join(parts, sep)|
  {
    var s := Join(parts, sep);
    if s == [] {
    } else if parts[0] == [] {
      assert |parts| > 1;
      assert s == [sep] + Join(parts[1..], sep);
      assert s[1..] == Join(parts[1..], sep);
      SplitJoin(parts[1..], sep);
      assert [""] + parts[1..] == parts;
    } else {
      var c := parts[0][0];
      var u := parts[0][1..];
      assert parts[0] == [c] + u;
      assert [[c] + u] + parts[1..] == parts;
      JoinConsHead(c, u, parts, sep);
      var q := [u] + parts[1..];
      assert s == [c] + Join(q, sep);
      assert s[0] == c && c != sep;
      assert s[1..] == Join(q, sep);
      forall i | 0 <= i < |q| ensures sep !in q[i] {
        if i == 0 {
          assert forall k :: 0 <= k < |u| ==> u[k] == parts[0][k + 1];
        } else {
          assert q[i] == parts[i];
        }
      }
      SplitJoin(q, sep);
      assert q[1..] == parts[1..];
    }
  }

  // ---------------------------------------------------------------------------
  // String(n) for integers, and its inverse on digit strings
  // ---------------------------------------------------------------------------

  predicate IsDigit(c: char) {
    '0' <= c <= '9'
  }

  predicate AllDigits(s: string) {
    forall i :: 0 <= i < |s| ==> IsDigit(s[i])
  }

  function DigitChar(d: nat): (c: char)
    requires d < 10
    ensures IsDigit(c)
  {
    (('0' as int) + d) as char
  }

  function DigitValue(c: char): nat
    requires IsDigit(c)
  {
    (c as int) - ('0' as int)
  }

  /** The number a string of decimal digits denotes (most significant digit first). */
  function DigitsValue(s: string): nat
    requires AllDigits(s)
  {
    if s == [] then 0 else 10 * DigitsValue(s[..|s| - 1]) + DigitValue(s[|s| - 1])
  }

  /** `String(n)` for a non-negative integer: decimal digits, no leading zero. */
  function NatToString(n: nat): (s: string)
    ensures 1 <= |s| && AllDigits(s)
    ensures |s| > 1 ==> s[0] != '0'
  {
    if n < 10 then [DigitChar(n)] else NatToString(n / 10) + [DigitChar(n % 10)]
  }

  /** Reading the digits back gives the number. */
  lemma {:induction false} NatToStringValue(n: nat)
    ensures DigitsValue(NatToString(n)) == n
  {
    var s := NatToString(n);
    if n >= 10 {
      NatToStringValue(n / 10);
      assert s[..|s| - 1] == NatToString(n / 10);
    }
  }

  lemma NatToStringInjective(a: nat, b: nat)
    requires NatToString(a) == NatToString(b)
    ensures a == b
  {
    NatToStringValue(a);
    NatToStringValue(b);
  }

  /** Four-digit numbers print as four characters. */
  lemma NatToStringFourDigits(n: nat)
    requires 1000 <= n <= 9999
    ensures |NatToString(n)| == 4
  {
    var n1, n2, n3 := n / 10, n / 10 / 10, n / 10 / 10 / 10;
    assert 100 <= n1 <= 999 && 10 <= n2 <= 99 && 1 <= n3 <= 9;
    assert |NatToString(n3)| == 1;
    assert |NatToString(n2)| == |NatToString(n3)| + 1;
    assert |NatToString(n1)| == |NatToString(n2)| + 1;
    assert |NatToString(n)| == |NatToString(n1)| + 1;
  }

  /** `String(i)` for an integer: a minus sign before the digits of a negative number. */
  function IntToString(i: int): (s: string)
    ensures s != []
  {
    if i < 0 then "-" + NatToString(-i) else NatToString(i)
  }

  /** Different integers print differently. */
  lemma IntToStringInjective(a: int, b: int)
    requires IntToString(a) == IntToString(b)
    ensures a == b
  {
    var s := IntToString(a);
    if a < 0 && b < 0 {
      assert NatToString(-a) == s[1..] == NatToString(-b);
      NatToStringInjective(-a, -b);
    } else if a >= 0 && b >= 0 {
      NatToStringInjective(a, b);
    }
  }

  // ---------------------------------------------------------------------------
  // padStart(length, fill)
  // ---------------------------------------------------------------------------

  /** `s.padStart(length, fill)` for a one-character fill string. */
  function PadStart(s: string, length: nat, fill: char): (r: string)
    ensures |r| == if |s| >= length then |s| else length
    ensures r[|r| - |s|..] == s
    ensures forall i :: 0 <= i < |r| - |s| ==> r[i] == fill
  {
    if |s| >= length then s else seq(length - |s|, _ => fill) + s
  }

  /** `String(n).padStart(2, '0')`. */
  function Pad2(n: nat): string {
    PadStart(NatToString(n), 2, '0')
  }

  /** Numbers below one hundred become exactly two digits that read back as the number. */
  lemma Pad2Digits(n: nat)
    requires n < 100
    ensures |Pad2(n)| == 2 && AllDigits(Pad2(n)) && DigitsValue(Pad2(n)) == n
  {
    var p := Pad2(n);
    if n < 10 {
      assert p == ['0', DigitChar(n)];
      assert p[..1] == ['0'];
      assert DigitsValue(['0']) == 0;
      assert DigitValue(DigitChar(n)) == n;
    } else {
      assert NatToString(n) == NatToString(n / 10) + [DigitChar(n % 10)];
      assert p == NatToString(n);
      NatToStringValue(n);
    }
  }

  lemma Pad2Injective(a: nat, b: nat)
    requires a < 100 && b < 100 && Pad2(a) == Pad2(b)
    ensures a == b
  {
    Pad2Digits(a);
    Pad2Digits(b);
  }

  /** Printed numbers, padded or not, contain no '.'. */
  lemma PrintedHasNoDot(i: int, n: nat)
    ensures '.' !in IntToString(i) && '.' !in Pad2(n)
  {
    var digits := NatToString(if i < 0 then -i else i);
    assert forall k :: 0 <= k < |digits| ==> IsDigit(digits[k]);
    if i < 0 {
      assert IntToString(i) == ['-'] + digits;
    }
    var p, r := NatToString(n), Pad2(n);
    assert forall k :: 0 <= k < |p| ==> IsDigit(p[k]);
    forall k | 0 <= k < |r|
      ensures r[k] != '.'
    {
      if k >= |r| - |p| {
        assert r[k] == r[|r| - |p|..][k - (|r| - |p|)];
      }
    }
  }
}
