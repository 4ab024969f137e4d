/**
 * The pieces of Java and Python string behaviour that the services depend on:
 * decimal printing and parsing, `%0Nd` zero padding, ASCII case folding,
 * `String.trim`, `String.isBlank`, splitting on a separator character and
 * `String.replace(target, "")`.
 */
module Strings {
  import opened Wrappers

  predicate IsDigit(c: char) { '0' <= c <= '9' }

  predicate AllDigits(s: string) { forall i :: 0 <= i < |s| ==> IsDigit(s[i]) }

  function DigitChar(d: nat): (c: char)
    requires d < 10
    ensures IsDigit(c) && (c as int) - ('0' as int) == d
  {
    (('0' as int) + d) as char
  }

  /** Decimal digits of `n`, most significant first, without leading zeros. */
  function DigitsOf(n: nat): (s: string)
    ensures |s| > 0 && AllDigits(s)
    ensures n > 0 ==> s[0] != '0'
  {
    if n < 10 then [DigitChar(n)] else DigitsOf(n / 10) + [DigitChar(n % 10)]
  }

  /** The number an all-digit string denotes (leading zeros allowed). */
  function DigitsValue(s: string): nat
    requires AllDigits(s)
  {
    if |s| == 0 then 0
    else 10 * DigitsValue(s[..|s| - 1]) + ((s[|s| - 1] as int) - ('0' as int))
  }

  /** `Long.toString` / Python `str` of an integer. */
  function IntToString(n: int): (s: string)
    ensures |s| > 0
  {
    if n < 0 then "-" + DigitsOf(-n) else DigitsOf(n)
  }

  /** An optional sign followed by one or more ASCII digits, with no range limit. */
  function ParseDecimal(s: string): Option<int>
  {
    if |s| > 0 && (s[0] == '-' || s[0] == '+') then
      if |s| > 1 && AllDigits(s[1..]) then
        var v: int := DigitsValue(s[1..]);
        Some(if s[0] == '-' then -v else v)
      else None
    else if |s| > 0 && AllDigits(s) then Some(DigitsValue(s))
    else None
  }

  const IntMin: int := -0x8000_0000
  const IntMax: int := 0x7fff_ffff

  /** `Integer.parseInt`: a decimal that must fit in 32 bits, otherwise NumberFormatException (None). */
  function JavaParseInt(s: string): Option<int>
  {
    match ParseDecimal(s)
    case Some(v) => if IntMin <= v <= IntMax then Some(v) else None
    case None => None
  }

  /** The characters Python's `int()` strips from both ends of its argument. */
  predicate IsPythonSpace(c: char)
  {
    ('\t' <= c <= '\r') || ('\U{1C}' <= c <= ' ') || c == '\U{85}' || c == '\U{A0}' ||
    c == '\U{1680}' || ('\U{2000}' <= c <= '\U{200A}') || c == '\U{2028}' || c == '\U{2029}' ||
    c == '\U{202F}' || c == '\U{205F}' || c == '\U{3000}'
  }

  function StripPythonSpace(s: string): (r: string)
    ensures |r| <= |s|
    ensures |r| > 0 ==> !IsPythonSpace(r[0]) && !IsPythonSpace(r[|r| - 1])
  {
    if |s| > 0 && IsPythonSpace(s[0]) then StripPythonSpace(s[1..])
    else if |s| > 0 && IsPythonSpace(s[|s| - 1]) then StripPythonSpace(s[..|s| - 1])
    else s
  }

  /** Python `int(s)` on a string: surrounding white space, a sign and ASCII digits; None is a ValueError. */
  function PythonInt(s: string): Option<int>
  {
    ParseDecimal(StripPythonSpace(s))
  }

  lemma {:induction false} DigitsOfValue(n: nat)
    ensures DigitsValue(DigitsOf(n)) == n
  {
    if n >= 10 {
      DigitsOfValue(n / 10);
      var s := DigitsOf(n);
      assert s[..|s| - 1] == DigitsOf(n / 10);
    }
  }

  /** Printing an integer and parsing it back gives the integer. */
  lemma IntToStringRoundTrip(n: int)
    ensures ParseDecimal(IntToString(n)) == Some(n)
    ensures IntMin <= n <= IntMax ==> JavaParseInt(IntToString(n)) == Some(n)
  {
    if n < 0 {
      DigitsOfValue(-n);
      assert ("-" + DigitsOf(-n))[1..] == DigitsOf(-n);
    } else {
      DigitsOfValue(n);
    }
  }

  lemma IntToStringInjective(a: int, b: int)
    requires IntToString(a) == IntToString(b)
    ensures a == b
  {
    IntToStringRoundTrip(a);
    IntToStringRoundTrip(b);
  }

  /** `Integer.toString` never produces a character other than a digit or a minus sign. */
  lemma IntToStringChars(n: int, c: char)
    requires c in IntToString(n)
    ensures IsDigit(c) || c == '-'
  {
  }

  /** In particular no number's text holds a ':'. */
  lemma IntToStringHasNoColon(n: int)
    ensures ':' !in IntToString(n)
  {
    if ':' in IntToString(n) {
      IntToStringChars(n, ':');
    }
  }

  function Zeros(k: nat): (s: string)
    ensures |s| == k && forall i :: 0 <= i < k ==> s[i] == '0'
  {
    if k == 0 then "" else "0" + Zeros(k - 1)
  }

  function LeftPadZeros(digits: string, width: nat): string
  {
    if |digits| >= width then digits else Zeros(width - |digits|) + digits
  }

  /** `String.format("%0<width>d", n)`: the sign counts toward the width and the zeros follow it. */
  function FormatZeroPadded(n: int, width: nat): string
  {
    if n < 0 then "-" + LeftPadZeros(DigitsOf(-n), if width == 0 then 0 else width - 1)
    else LeftPadZeros(DigitsOf(n), width)
  }

  lemma {:induction false} LeadingZerosValue(k: nat, d: string)
    requires AllDigits(d)
    ensures AllDigits(Zeros(k) + d) && DigitsValue(Zeros(k) + d) == DigitsValue(d)
    decreases k + |d|
  {
    var z := Zeros(k) + d;
    if |d| == 0 {
      assert z == Zeros(k);
      if k > 0 {
        assert z[..k - 1] == Zeros(k - 1) + "";
        LeadingZerosValue(k - 1, "");
      }
    } else {
      assert z[..|z| - 1] == Zeros(k) + d[..|d| - 1];
      LeadingZerosValue(k, d[..|d| - 1]);
    }
  }

  lemma LeftPadZerosValue(d: string, width: nat)
    requires AllDigits(d) && |d| > 0
    ensures var p := LeftPadZeros(d, width); |p| > 0 && AllDigits(p) && DigitsValue(p) == DigitsValue(d)
  {
    if |d| < width {
      LeadingZerosValue(width - |d|, d);
    }
  }

  lemma ParseUnsignedDigits(p: string)
    requires |p| > 0 && AllDigits(p)
    ensures ParseDecimal(p) == Some(DigitsValue(p) as int)
    ensures ParseDecimal("-" + p) == Some(0 - DigitsValue(p))
  {
    assert IsDigit(p[0]);
    var q := "-" + p;
    assert q[1..] == p;
  }

  /** Zero padding loses nothing: the padded text still parses to the number. */
  lemma FormatZeroPaddedRoundTrip(n: int, width: nat)
    ensures ParseDecimal(FormatZeroPadded(n, width)) == Some(n)
  {
    var m: nat := if n < 0 then -n else n;
    var w: nat := if n < 0 then (if width == 0 then 0 else width - 1) else width;
    var p := LeftPadZeros(DigitsOf(m), w);
    DigitsOfValue(m);
    LeftPadZerosValue(DigitsOf(m), w);
    ParseUnsignedDigits(p);
    assert FormatZeroPadded(n, width) == if n < 0 then "-" + p else p;
  }

  /** The padded text is exactly `width` long unless the number needs more characters. */
  lemma FormatZeroPaddedLength(n: int, width: nat)
    ensures |FormatZeroPadded(n, width)| == if |IntToString(n)| >= width then |IntToString(n)| else width
  {
  }

  // ----- case -----

  function AsciiLower(c: char): char
  {
    if 'A' <= c <= 'Z' then ((c as int) + 32) as char else c
  }

  /** `String.toLowerCase` restricted to ASCII letters. */
  function ToLowerCase(s: string): string
  {
    seq(|s|, i requires 0 <= i < |s| => AsciiLower(s[i]))
  }

  /** `String.equalsIgnoreCase` restricted to ASCII letters. */
  predicate EqualsIgnoreCase(a: string, b: string)
  {
    |a| == |b| && forall i :: 0 <= i < |a| ==> AsciiLower(a[i]) == AsciiLower(b[i])
  }

  lemma EqualsIgnoreCaseIsLowerEquality(a: string, b: string)
    ensures EqualsIgnoreCase(a, b) <==> ToLowerCase(a) == ToLowerCase(b)
  {
    if ToLowerCase(a) == ToLowerCase(b) {
      assert |a| == |ToLowerCase(a)|;
      forall i | 0 <= i < |a| ensures AsciiLower(a[i]) == AsciiLower(b[i]) {
        assert ToLowerCase(a)[i] == ToLowerCase(b)[i];
      }
    }
  }

  // ----- trim and blank -----

  /** Index of the first character after `i` that `String.trim` keeps (above U+0020), or `|s|`. */
  function FirstKept(s: string, i: nat): (r: nat)
    requires i <= |s|
    ensures i <= r <= |s| && (r < |s| ==> s[r] > ' ')
    ensures forall k :: i <= k < r ==> s[k] <= ' '
    decreases |s| - i
  {
    if i < |s| && s[i] <= ' ' then FirstKept(s, i + 1) else i
  }

  /** End of the kept part: one past the last character above U+0020 in `s[lo..hi]`, or `lo`. */
  function LastKeptEnd(s: string, lo: nat, hi: nat): (r: nat)
    requires lo <= hi <= |s|
    ensures lo <= r <= hi && (r > lo ==> s[r - 1] > ' ')
    ensures forall k :: r <= k < hi ==> s[k] <= ' '
    decreases hi
  {
    if lo < hi && s[hi - 1] <= ' ' then LastKeptEnd(s, lo, hi - 1) else hi
  }

  /** `String.trim`: drops every leading and trailing character at or below U+0020. */
  function Trim(s: string): (r: string)
    ensures |r| > 0 ==> r[0] > ' ' && r[|r| - 1] > ' '
    ensures |r| <= |s|
  {
    var lo := FirstKept(s, 0);
    s[lo..LastKeptEnd(s, lo, |s|)]
  }

  /** `Character.isWhitespace`. */
  predicate IsJavaWhitespace(c: char)
  {
    ('\t' <= c <= '\r') || ('\U{1C}' <= c <= ' ') ||
    c == '\U{1680}' || ('\U{2000}' <= c <= '\U{2006}') || ('\U{2008}' <= c <= '\U{200A}') ||
    c == '\U{2028}' || c == '\U{2029}' || c == '\U{205F}' || c == '\U{3000}'
  }

  /** `String.isBlank`: empty or white space only. */
  predicate IsBlank(s: string)
  {
    forall i :: 0 <= i < |s| ==> IsJavaWhitespace(s[i])
  }

  // ----- split and join -----

  /** Every piece between occurrences of `sep`, empty pieces included. */
  function Split(s: string, sep: char): (pieces: seq<string>)
    ensures |pieces| > 0
    ensures forall i :: 0 <= i < |pieces| ==> sep !in pieces[i]
  {
    if |s| == 0 then [""]
    else
      var rest := Split(s[1..], sep);
      if s[0] == sep then [""] + rest else [[s[0]] + rest[0]] + rest[1..]
  }

  function Join(pieces: seq<string>, sep: char): string
    requires |pieces| > 0
  {
    if |pieces| == 1 then pieces[0] else pieces[0] + [sep] + Join(pieces[1..], sep)
  }

  /** Splitting loses nothing: joining the pieces with the separator restores the text. */
  lemma {:induction false} JoinSplit(s: string, sep: char)
    ensures Join(Split(s, sep), sep) == s
  {
    if |s| > 0 {
      var rest := Split(s[1..], sep);
      JoinSplit(s[1..], sep);
      if s[0] == sep {
        assert Join([""] + rest, sep) == "" + [sep] + Join(rest, sep);
        assert s == [sep] + s[1..];
      } else {
        var p := [[s[0]] + rest[0]] + rest[1..];
        if |rest| == 1 {
          assert s == [s[0]] + s[1..];
        } else {
          assert p[1..] == rest[1..];
          assert Join(rest, sep) == rest[0] + [sep] + Join(rest[1..], sep);
          assert s == [s[0]] + s[1..];
        }
      }
    }
  }

  /** And the other way round: pieces free of the separator are what splitting their join gives. */
  lemma {:induction false} SplitJoin(pieces: seq<string>, sep: char)
    requires |pieces| > 0
    requires forall i :: 0 <= i < |pieces| ==> sep !in pieces[i]
    ensures Split(Join(pieces, sep), sep) == pieces
    decreases |pieces|, |pieces[0]|
  {
    var p0 := pieces[0];
    if |p0| == 0 {
      if |pieces| > 1 {
        var j := Join(pieces, sep);
        assert j == [sep] + Join(pieces[1..], sep);
        assert j[1..] == Join(pieces[1..], sep);
        SplitJoin(pieces[1..], sep);
        assert pieces == [""] + pieces[1..];
      }
    } else {
      var shorter := [p0[1..]] + pieces[1..];
      assert sep !in shorter[0];
      SplitJoin(shorter, sep);
      var j := Join(pieces, sep);
      if |pieces| == 1 {
        assert j[1..] == Join(shorter, sep);
      } else {
        assert shorter[1..] == pieces[1..];
        assert j[1..] == Join(shorter, sep);
      }
      assert j[0] == p0[0];
      assert p0 == [p0[0]] + p0[1..];
      assert pieces == [p0] + pieces[1..];
    }
  }

  // ----- replace -----

  predicate OccursAt(s: string, pat: string, j: int)
  {
    0 <= j && j + |pat| <= |s| && s[j..j + |pat|] == pat
  }

  ghost predicate Occurs(s: string, pat: string)
  {
    exists j :: OccursAt(s, pat, j)
  }

  /** `s.replace(pat, "")` for a non-empty `pat`: every occurrence, found left to right without overlap, is dropped. */
  function RemoveAll(s: string, pat: string): (r: string)
    requires |pat| > 0
    ensures |r| <= |s|
    decreases |s|
  {
    if |s| < |pat| then s
    else if s[..|pat|] == pat then RemoveAll(s[|pat|..], pat)
    else [s[0]] + RemoveAll(s[1..], pat)
  }

  lemma {:induction false} RemoveAllWithoutOccurrence(s: string, pat: string)
    requires |pat| > 0 && !Occurs(s, pat)
    ensures RemoveAll(s, pat) == s
    decreases |s|
  {
    if |s| >= |pat| {
      assert !OccursAt(s, pat, 0);
      assert !Occurs(s[1..], pat) by {
        forall j | OccursAt(s[1..], pat, j) ensures false {
          assert s[1..][j..j + |pat|] == s[j + 1..j + 1 + |pat|];
          assert OccursAt(s, pat, j + 1);
        }
      }
      RemoveAllWithoutOccurrence(s[1..], pat);
      assert s == [s[0]] + s[1..];
    }
  }

  lemma {:induction false} RemoveAllShrinks(s: string, pat: string, j: int)
    requires |pat| > 0 && OccursAt(s, pat, j)
    ensures |RemoveAll(s, pat)| < |s|
    decreases |s|
  {
    if s[..|pat|] != pat {
      assert j != 0;
      assert s[1..][j - 1..j - 1 + |pat|] == s[j..j + |pat|];
      RemoveAllShrinks(s[1..], pat, j - 1);
    }
  }

  /** Removing `pat` leaves `s` as it was exactly when `pat` does not occur in it. */
  lemma RemoveAllFixedIff(s: string, pat: string)
    requires |pat| > 0
    ensures RemoveAll(s, pat) == s <==> !Occurs(s, pat)
  {
    if Occurs(s, pat) {
      var j :| OccursAt(s, pat, j);
      RemoveAllShrinks(s, pat, j);
    } else {
      RemoveAllWithoutOccurrence(s, pat);
    }
  }

  /** A pattern holding a character that `s` lacks cannot occur in `s`. */
  lemma MissingCharRulesOutOccurrence(s: string, pat: string, k: nat)
    requires k < |pat| && pat[k] !in s
    ensures !Occurs(s, pat)
  {
  }
}
