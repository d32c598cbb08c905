/**
 * The few pieces of Python string behaviour the views rely on:
 * `str.strip()`, `str(n)` for a non-negative integer, ASCII case folding
 * and substring search (Django's `icontains` lookup).
 */
module PyStr {

  /** Python's `str.isspace()` on one character. */
  predicate IsSpace(c: char) {
    || c == ' '
    || ('\t' <= c <= '\r')
    || ('\U{1c}' <= c <= '\U{1f}')
    || c == '\U{85}' || c == '\U{a0}' || c == '\U{1680}'
    || ('\U{2000}' <= c <= '\U{200a}')
    || c == '\U{2028}' || c == '\U{2029}' || c == '\U{202f}' || c == '\U{205f}' || c == '\U{3000}'
  }

  predicate AllSpace(s: string) {
    forall i :: 0 <= i < |s| ==> IsSpace(s[i])
  }

  /** Neither end of `s` is white space. */
  predicate Trimmed(s: string) {
    s == [] || (!IsSpace(s[0]) && !IsSpace(s[|s| - 1]))
  }

  /** How many characters at the front of `s` are white space. */
  function LeadingSpace(s: string): (n: nat)
    ensures n <= |s|
    ensures forall k :: 0 <= k < n ==> IsSpace(s[k])
    ensures n == |s| || !IsSpace(s[n])
  {
    if s != [] && IsSpace(s[0]) then 1 + LeadingSpace(s[1..]) else 0
  }

  /** How many characters at the back of `s` are white space. */
  function TrailingSpace(s: string): (n: nat)
    ensures n <= |s|
    ensures forall k :: |s| - n <= k < |s| ==> IsSpace(s[k])
    ensures n == |s| || !IsSpace(s[|s| - 1 - n])
  {
    if s != [] && IsSpace(s[|s| - 1]) then 1 + TrailingSpace(s[..|s| - 1]) else 0
  }

  /** Where the stripped slice of `s` ends: nothing is left when `s` is all white space. */
  function StripEnd(s: string): (j: nat)
    ensures LeadingSpace(s) <= j <= |s|
    ensures j == LeadingSpace(s) || !IsSpace(s[j - 1])
    ensures forall k :: j <= k < |s| ==> IsSpace(s[k])
  {
    var i := LeadingSpace(s);
    if i == |s| then i
    else
      assert !IsSpace(s[i]);
      |s| - TrailingSpace(s)
  }

  /** The slice kept by `Strip` begins and ends with a non-space character. */
  lemma StripSliceTrimmed(s: string)
    ensures Trimmed(s[LeadingSpace(s)..StripEnd(s)])
    ensures s[LeadingSpace(s)..StripEnd(s)] == [] <==> AllSpace(s)
  {
    var i, j := LeadingSpace(s), StripEnd(s);
    var r := s[i..j];
    if r != [] {
      assert r[0] == s[i] && r[|r| - 1] == s[j - 1];
    }
    if AllSpace(s) {
      assert i == |s|;
    }
  }

  /** Everything around the slice kept by `Strip` is white space. */
  lemma StripSliceSurround(s: string)
    ensures AllSpace(s[..LeadingSpace(s)]) && AllSpace(s[StripEnd(s)..])
  {
    var i, j := LeadingSpace(s), StripEnd(s);
    forall k | 0 <= k < i ensures IsSpace(s[..i][k]) {
      assert s[..i][k] == s[k];
    }
    forall k | 0 <= k < |s| - j ensures IsSpace(s[j..][k]) {
      assert s[j..][k] == s[j + k];
    }
  }

  /**
   * Python's `s.strip()`: the longest slice of `s` that neither starts nor
   * ends with white space, empty exactly when `s` is all white space.
   */
  function Strip(s: string): (r: string)
    ensures Trimmed(r)
    ensures r == [] <==> AllSpace(s)
    ensures Trimmed(s) ==> r == s
    ensures |r| <= |s|
    ensures exists i, j :: 0 <= i <= j <= |s| && r == s[i..j] && AllSpace(s[..i]) && AllSpace(s[j..])
  {
    StripSliceTrimmed(s);
    StripSliceSurround(s);
    s[LeadingSpace(s)..StripEnd(s)]
  }

  predicate IsDigit(c: char) {
    '0' <= c <= '9'
  }

  predicate AllDigits(s: string) {
    forall i :: 0 <= i < |s| ==> IsDigit(s[i])
  }

  function DigitChar(d: nat): (c: char)
    requires d < 10
    ensures IsDigit(c) && c as int - '0' as int == d
  {
    ('0' as int + d) as char
  }

  /** Python's `str(n)` for a non-negative integer: its decimal digits, no leading zero. */
  function NatToString(n: nat): (r: string)
    ensures |r| > 0 && AllDigits(r)
    ensures |r| > 1 ==> r[0] != '0'
  {
    if n < 10 then [DigitChar(n)] else NatToString(n / 10) + [DigitChar(n % 10)]
  }

  /** The value of a string of decimal digits. */
  function DigitsValue(s: string): nat
    requires AllDigits(s)
  {
    if s == [] then 0 else DigitsValue(s[..|s| - 1]) * 10 + (s[|s| - 1] as int - '0' as int)
  }

  lemma {:induction false} NatToStringRoundTrip(n: nat)
    ensures DigitsValue(NatToString(n)) == n
  {
    if n >= 10 {
      var s := NatToString(n);
      assert s[..|s| - 1] == NatToString(n / 10);
      NatToStringRoundTrip(n / 10);
    }
  }

  /** Distinct numbers print differently. */
  lemma NatToStringInjective(m: nat, n: nat)
    ensures NatToString(m) == NatToString(n) ==> m == n
  {
    NatToStringRoundTrip(m);
    NatToStringRoundTrip(n);
  }

  /**
   * A digit string followed by a non-digit is split off unambiguously:
   * equal concatenations of digit strings with tails that start with the
   * same non-digit have equal digit strings and equal tails.
   */
  lemma DigitPrefixUnique(a: string, s: string, b: string, t: string)
    requires AllDigits(a) && AllDigits(b)
    requires |s| > 0 && |t| > 0 && !IsDigit(s[0]) && !IsDigit(t[0])
    requires a + s == b + t
    ensures a == b && s == t
  {
    assert a == (a + s)[..|a|];
    assert b == (b + t)[..|b|];
    assert s == (a + s)[|a|..];
    assert t == (b + t)[|b|..];
  }

  /** ASCII case folding (upper-case Latin letters to lower case). */
  function LowerChar(c: char): char {
    if 'A' <= c <= 'Z' then (c as int - 'A' as int + 'a' as int) as char else c
  }

  function Lower(s: string): (r: string)
    ensures |r| == |s| && forall i :: 0 <= i < |s| ==> r[i] == LowerChar(s[i])
  {
    if s == [] then [] else [LowerChar(s[0])] + Lower(s[1..])
  }

  predicate Occurs(needle: string, hay: string, i: int) {
    0 <= i && i + |needle| <= |hay| && hay[i..i + |needle|] == needle
  }

  /** Substring search, scanning `hay` from the left. */
  function Contains(hay: string, needle: string): bool
    decreases |hay|
  {
    if |needle| > |hay| then false
    else if hay[..|needle|] == needle then true
    else Contains(hay[1..], needle)
  }

  /** `Contains` finds `needle` exactly when it occurs at some position of `hay`. */
  lemma {:induction false} ContainsIff(hay: string, needle: string)
    ensures Contains(hay, needle) <==> exists i :: Occurs(needle, hay, i)
    decreases |hay|
  {
    if |needle| > |hay| {
    } else if hay[..|needle|] == needle {
      assert Occurs(needle, hay, 0);
    } else {
      ContainsIff(hay[1..], needle);
      if Contains(hay[1..], needle) {
        var i :| Occurs(needle, hay[1..], i);
        assert hay[i + 1..i + 1 + |needle|] == hay[1..][i..i + |needle|];
        assert Occurs(needle, hay, i + 1);
      } else {
        forall i | Occurs(needle, hay, i) ensures false {
          if i == 0 {
          } else {
            assert hay[1..][i - 1..i - 1 + |needle|] == hay[i..i + |needle|];
            assert Occurs(needle, hay[1..], i - 1);
          }
        }
      }
    }
  }

  /** `needle` occurs somewhere in `hay` once both are case-folded. */
  ghost predicate OccursIgnoringCase(needle: string, hay: string) {
    exists i :: Occurs(Lower(needle), Lower(hay), i)
  }

  /** Django's `icontains`: case-insensitive substring test (ASCII folding). */
  function IContains(hay: string, needle: string): (r: bool)
    ensures r <==> OccursIgnoringCase(needle, hay)
  {
    ContainsIff(Lower(hay), Lower(needle));
    Contains(Lower(hay), Lower(needle))
  }

  /** Every string occurs in itself, whatever the letter case of either copy. */
  lemma IContainsSelf(s: string)
    ensures IContains(s, s)
  {
    ContainsIff(Lower(s), Lower(s));
    assert Occurs(Lower(s), Lower(s), 0);
  }
}
