/** Character classes and string operations shared by the JavaScript pages
    and the Python services: ASCII case mapping, the two languages'
    whitespace sets and trimming, decimal rendering of naturals, prefix and
    suffix tests, and Python's `str.replace`. */
module Text {

  predicate IsAsciiUpper(c: char) { 'A' <= c <= 'Z' }

  predicate IsAsciiLower(c: char) { 'a' <= c <= 'z' }

  function ToAsciiLowerChar(c: char): (r: char)
    ensures IsAsciiUpper(c) ==> IsAsciiLower(r) && r as int - c as int == 32
    ensures !IsAsciiUpper(c) ==> r == c
  {
    if IsAsciiUpper(c) then (c as int + 32) as char else c
  }

  function ToAsciiUpperChar(c: char): (r: char)
    ensures IsAsciiLower(c) ==> IsAsciiUpper(r) && c as int - r as int == 32
    ensures !IsAsciiLower(c) ==> r == c
  {
    if IsAsciiLower(c) then (c as int - 32) as char else c
  }

  function ToAsciiLower(s: string): (r: string)
    ensures |r| == |s|
    ensures forall i :: 0 <= i < |s| ==> r[i] == ToAsciiLowerChar(s[i])
  {
    if |s| == 0 then "" else [ToAsciiLowerChar(s[0])] + ToAsciiLower(s[1..])
  }

  function ToAsciiUpper(s: string): (r: string)
    ensures |r| == |s|
    ensures forall i :: 0 <= i < |s| ==> r[i] == ToAsciiUpperChar(s[i])
  {
    if |s| == 0 then "" else [ToAsciiUpperChar(s[0])] + ToAsciiUpper(s[1..])
  }

  /** ECMAScript WhiteSpace and LineTerminator code points, the set that
      `String.prototype.trim` removes. */
  predicate IsJsWhitespace(c: char)
  {
    || c == '\t' || c == '\n' || c == '\U{0B}' || c == '\U{0C}' || c == '\r'
    || c == ' ' || c == '\U{A0}' || c == '\U{1680}'
    || ('\U{2000}' <= c <= '\U{200A}')
    || c == '\U{2028}' || c == '\U{2029}' || c == '\U{202F}' || c == '\U{205F}'
    || c == '\U{3000}' || c == '\U{FEFF}'
  }

  /** The code points for which Python's `str.isspace` holds, the set that
      `str.strip()` without arguments removes. */
  predicate IsPyWhitespace(c: char)
  {
    || ('\t' <= c <= '\r')
    || ('\U{1C}' <= c <= '\U{1F}')
    || c == ' ' || c == '\U{85}' || c == '\U{A0}' || c == '\U{1680}'
    || ('\U{2000}' <= c <= '\U{200A}')
    || c == '\U{2028}' || c == '\U{2029}' || c == '\U{202F}' || c == '\U{205F}'
    || c == '\U{3000}'
  }

  /** Every character of `t` is in the class `ws`. */
  predicate All(t: string, ws: char -> bool)
  {
    forall k :: 0 <= k < |t| ==> ws(t[k])
  }

  /** The first index at or after `i` that does not hold a `ws`
      character, `|s|` when there is none. */
  function SkipForward(s: string, ws: char -> bool, i: nat): (n: nat)
    requires i <= |s|
    ensures i <= n <= |s|
    ensures forall k :: i <= k < n ==> ws(s[k])
    ensures n < |s| ==> !ws(s[n])
    decreases |s| - i
  {
    if i < |s| && ws(s[i]) then SkipForward(s, ws, i + 1) else i
  }

  /** The end of `s[..j]` once its trailing `ws` characters are dropped. */
  function SkipBackward(s: string, ws: char -> bool, j: nat): (n: nat)
    requires j <= |s|
    ensures n <= j
    ensures forall k :: n <= k < j ==> ws(s[k])
    ensures n > 0 ==> !ws(s[n - 1])
  {
    if j > 0 && ws(s[j - 1]) then SkipBackward(s, ws, j - 1) else j
  }

  /** The number of `ws` characters at the start of `s`. */
  function LeadingCount(s: string, ws: char -> bool): (n: nat)
    ensures n <= |s|
    ensures forall k :: 0 <= k < n ==> ws(s[k])
    ensures n < |s| ==> !ws(s[n])
  {
    SkipForward(s, ws, 0)
  }

  /** Removes the longest prefix and suffix made of `ws` characters: the
      result is the slice of `s` after its leading `ws` run that ends with a
      non-`ws` character and is followed only by `ws` characters. */
  function Trim(s: string, ws: char -> bool): (r: string)
    ensures LeadingCount(s, ws) + |r| <= |s|
    ensures r == s[LeadingCount(s, ws)..LeadingCount(s, ws) + |r|]
    ensures forall k :: LeadingCount(s, ws) + |r| <= k < |s| ==> ws(s[k])
    ensures |r| > 0 ==> !ws(r[0]) && !ws(r[|r| - 1])
    ensures r == [] <==> All(s, ws)
  {
    var i := LeadingCount(s, ws);
    if i == |s| then
      assert s[..i] == s;
      []
    else
      var j := SkipBackward(s, ws, |s|);
      assert !ws(s[i]);
      s[i..j]
  }

  /** A string that neither starts nor ends with a `ws` character is its
      own trim. */
  lemma TrimUntouched(s: string, ws: char -> bool)
    requires |s| > 0 && !ws(s[0]) && !ws(s[|s| - 1])
    ensures Trim(s, ws) == s
  {
  }

  /** `s` begins with `t` (`startswith`). */
  predicate StartsWith(s: string, t: string)
  {
    |t| <= |s| && s[..|t|] == t
  }

  /** `s` ends with `t` (`endswith`). */
  predicate EndsWith(s: string, t: string)
  {
    |t| <= |s| && s[|s| - |t|..] == t
  }

  /** `t` occurs in `s` starting at index `i`. */
  predicate OccursAt(s: string, t: string, i: nat)
  {
    i + |t| <= |s| && s[i..i + |t|] == t
  }

  predicate Contains(s: string, t: string)
  {
    exists i: nat | i <= |s| :: OccursAt(s, t, i)
  }

  /** Python's `s.replace(pat, rep)`: every non-overlapping occurrence of
      `pat`, scanning left to right, is replaced by `rep`. */
  function ReplaceAll(s: string, pat: string, rep: string): (r: string)
    requires |pat| > 0
    ensures |rep| == |pat| ==> |r| == |s|
    ensures rep == pat ==> r == s
    decreases |s|
  {
    if |s| < |pat| then s
    else if s[..|pat|] == pat then rep + ReplaceAll(s[|pat|..], pat, rep)
    else s[..1] + ReplaceAll(s[1..], pat, rep)
  }

  /** A string in which `pat` does not occur is left as it is. */
  lemma {:induction false} ReplaceAbsent(s: string, pat: string, rep: string)
    requires |pat| > 0
    requires !Contains(s, pat)
    ensures ReplaceAll(s, pat, rep) == s
    decreases |s|
  {
    if |s| >= |pat| {
      assert !OccursAt(s, pat, 0);
      forall i: nat | OccursAt(s[1..], pat, i)
        ensures OccursAt(s, pat, i + 1)
      {
        assert s[1..][i..i + |pat|] == s[i + 1..i + 1 + |pat|];
      }
      ReplaceAbsent(s[1..], pat, rep);
      assert s == s[..1] + s[1..];
    }
  }

  /** When `pat` first occurs at the very end of `s + pat`, only that
      occurrence is replaced. */
  lemma {:induction false} ReplaceAtEnd(s: string, pat: string, rep: string)
    requires |pat| > 0
    requires forall i: nat :: i < |s| ==> !OccursAt(s + pat, pat, i)
    ensures ReplaceAll(s + pat, pat, rep) == s + rep
    decreases |s|
  {
    if |s| == 0 {
      assert s + pat == pat;
      assert (s + pat)[..|pat|] == pat;
      assert (s + pat)[|pat|..] == [];
    } else {
      assert !OccursAt(s + pat, pat, 0);
      assert (s + pat)[1..] == s[1..] + pat;
      forall i: nat | i < |s[1..]|
        ensures !OccursAt(s[1..] + pat, pat, i)
      {
        assert !OccursAt(s + pat, pat, i + 1);
        if i + |pat| <= |s[1..] + pat| {
          assert (s[1..] + pat)[i..i + |pat|] == (s + pat)[i + 1..i + 1 + |pat|];
        }
      }
      ReplaceAtEnd(s[1..], pat, rep);
      assert (s + pat)[..1] == s[..1];
      assert s[..1] + (s[1..] + rep) == s + rep;
    }
  }

  function DigitChar(d: nat): (c: char)
    requires d < 10
    ensures '0' <= c <= '9'
  {
    ('0' as int + d) as char
  }

  predicate IsDigit(c: char) { '0' <= c <= '9' }

  /** Decimal rendering of a natural number, as Python's `str` and an
      f-string write it: no sign and no leading zeros. */
  function NatToString(n: nat): (r: string)
    ensures |r| > 0
    ensures forall i :: 0 <= i < |r| ==> IsDigit(r[i])
    ensures |r| > 1 ==> r[0] != '0'
  {
    if n < 10 then [DigitChar(n)] else NatToString(n / 10) + [DigitChar(n % 10)]
  }

  /** The value of a string of decimal digits. */
  function ParseNat(s: string): nat
    requires forall i :: 0 <= i < |s| ==> IsDigit(s[i])
  {
    if |s| == 0 then 0
    else
      assert IsDigit(s[|s| - 1]);
      10 * ParseNat(s[..|s| - 1]) + (s[|s| - 1] as int - '0' as int)
  }

  /** Decimal rendering is undone by parsing, so distinct numbers render
      differently. */
  lemma {:induction false} ParseNatToString(n: nat)
    ensures ParseNat(NatToString(n)) == n
  {
    if n >= 10 {
      var s := NatToString(n);
      assert s[..|s| - 1] == NatToString(n / 10);
      ParseNatToString(n / 10);
    }
  }

  lemma NatToStringInjective(m: nat, n: nat)
    requires NatToString(m) == NatToString(n)
    ensures m == n
  {
    ParseNatToString(m);
    ParseNatToString(n);
  }
}
