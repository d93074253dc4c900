/**
 * The pieces of Python's string API the analyzer relies on: `str.strip()`
 * with and without an argument, `str.lower()` and the `in` substring test.
 */
module Strings {

  /** Python's `str.isspace()` character set, which `str.strip()` removes. */
  predicate IsSpace(c: char) {
    || ('\t' <= c <= '\r')
    || ('\U{1C}' <= c <= '\U{1F}')
    || c == ' '
    || c == '\U{85}'
    || c == '\U{A0}'
    || c == '\U{1680}'
    || ('\U{2000}' <= c <= '\U{200A}')
    || c == '\U{2028}'
    || c == '\U{2029}'
    || c == '\U{202F}'
    || c == '\U{205F}'
    || c == '\U{3000}'
  }

  /** Number of leading characters of `s` that `drop` accepts. */
  function LeadCount(s: string, drop: char -> bool): (n: nat)
    ensures n <= |s|
    ensures forall i :: 0 <= i < n ==> drop(s[i])
    ensures n < |s| ==> !drop(s[n])
  {
    if s == [] || !drop(s[0]) then 0 else 1 + LeadCount(s[1..], drop)
  }

  /** Length of `s` once its trailing characters accepted by `drop` are cut. */
  function KeepLength(s: string, drop: char -> bool): (m: nat)
    ensures m <= |s|
    ensures forall i :: m <= i < |s| ==> drop(s[i])
    ensures m > 0 ==> !drop(s[m - 1])
  {
    if s == [] || !drop(s[|s| - 1]) then |s| else KeepLength(s[..|s| - 1], drop)
  }

  /**
   * Python's `s.strip(chars)`: the longest run of `s` that neither starts
   * nor ends with a character accepted by `drop`, everything cut from
   * either end being accepted by `drop`.
   */
  function StripBy(s: string, drop: char -> bool): (r: string)
    ensures |r| > 0 ==> !drop(r[0]) && !drop(r[|r| - 1])
    ensures LeadCount(s, drop) + |r| <= |s|
    ensures r == s[LeadCount(s, drop)..LeadCount(s, drop) + |r|]
    ensures forall i :: LeadCount(s, drop) + |r| <= i < |s| ==> drop(s[i])
  {
    var a := LeadCount(s, drop);
    var m := KeepLength(s, drop);
    if m <= a then [] else s[a..m]
  }

  /** Python's `s.strip()`. */
  function Strip(s: string): string {
    StripBy(s, IsSpace)
  }

  predicate IsQuote(c: char) { c == '"' }

  predicate IsApostrophe(c: char) { c == '\'' }

  /** A string `strip` leaves alone: it neither starts nor ends with a dropped character. */
  predicate IsStrippedBy(s: string, drop: char -> bool) {
    |s| > 0 ==> !drop(s[0]) && !drop(s[|s| - 1])
  }

  /** Stripping a string that is already stripped changes nothing. */
  lemma StripByStripped(s: string, drop: char -> bool)
    requires IsStrippedBy(s, drop)
    ensures StripBy(s, drop) == s
  {
    if |s| > 0 {
      assert LeadCount(s, drop) == 0;
      assert KeepLength(s, drop) == |s|;
    }
  }

  /** Stripping twice is stripping once. */
  lemma StripByIdempotent(s: string, drop: char -> bool)
    ensures StripBy(StripBy(s, drop), drop) == StripBy(s, drop)
  {
    StripByStripped(StripBy(s, drop), drop);
  }

  /** Stripping a string padded by exactly one dropped character at each end. */
  lemma StripByOnePair(s: string, drop: char -> bool)
    requires |s| >= 3
    requires drop(s[0]) && drop(s[|s| - 1])
    requires !drop(s[1]) && !drop(s[|s| - 2])
    ensures StripBy(s, drop) == s[1..|s| - 1]
  {
    assert s[1..][0] == s[1];
    assert LeadCount(s, drop) == 1;
    var u := s[..|s| - 1];
    assert u[|u| - 1] == s[|s| - 2];
    assert KeepLength(u, drop) == |u|;
  }

  /** ASCII case folding of one character. */
  function LowerChar(c: char): char {
    if 'A' <= c <= 'Z' then (c as int + 32) as char else c
  }

  /** Python's `s.lower()`, restricted to the ASCII letters. */
  function Lower(s: string): (r: string)
    ensures |r| == |s|
    ensures forall i :: 0 <= i < |s| ==> r[i] == LowerChar(s[i])
  {
    seq(|s|, i requires 0 <= i < |s| => LowerChar(s[i]))
  }

  /** A string without upper-case ASCII letters. */
  predicate IsLower(s: string) {
    forall i :: 0 <= i < |s| ==> !('A' <= s[i] <= 'Z')
  }

  lemma LowerIsLower(s: string)
    ensures IsLower(Lower(s))
    ensures IsLower(s) ==> Lower(s) == s
  {
  }

  /** Case folding never turns whitespace into a letter or back. */
  lemma LowerKeepsSpace(c: char)
    ensures IsSpace(LowerChar(c)) == IsSpace(c)
  {
  }

  lemma {:induction false} LeadCountLower(s: string)
    ensures LeadCount(Lower(s), IsSpace) == LeadCount(s, IsSpace)
  {
    if s != [] {
      LowerKeepsSpace(s[0]);
      assert Lower(s)[1..] == Lower(s[1..]);
      LeadCountLower(s[1..]);
    }
  }

  lemma {:induction false} KeepLengthLower(s: string)
    ensures KeepLength(Lower(s), IsSpace) == KeepLength(s, IsSpace)
  {
    if s != [] {
      LowerKeepsSpace(s[|s| - 1]);
      assert Lower(s)[..|s| - 1] == Lower(s[..|s| - 1]);
      KeepLengthLower(s[..|s| - 1]);
    }
  }

  /** `strip` and `lower` commute: the order of `.strip().lower()` does not matter. */
  lemma StripLowerCommute(s: string)
    ensures Strip(Lower(s)) == Lower(Strip(s))
  {
    LeadCountLower(s);
    KeepLengthLower(s);
    var a := LeadCount(s, IsSpace);
    var m := KeepLength(s, IsSpace);
    if a < m {
      assert Lower(s)[a..m] == Lower(s[a..m]);
    }
  }

  /** `sub` occurs in `s` starting at index `i`. */
  predicate OccursAt(s: string, sub: string, i: nat) {
    i + |sub| <= |s| && s[i..i + |sub|] == sub
  }

  /** `sub` occurs somewhere in `s`: the meaning of Python's `sub in s`. */
  ghost predicate Occurs(s: string, sub: string) {
    exists i: nat :: OccursAt(s, sub, i)
  }

  /** A non-empty `sub` whose first character is nowhere in `s` does not occur in `s`. */
  lemma AbsentFirstChar(s: string, sub: string)
    requires sub != []
    requires forall i :: 0 <= i < |s| ==> s[i] != sub[0]
    ensures !Occurs(s, sub)
  {
    forall i: nat | i + |sub| <= |s| ensures !OccursAt(s, sub, i) {
      assert s[i..i + |sub|][0] == s[i];
    }
  }

  /** Python's `sub in s`, computed by trying every start position. */
  predicate Contains(s: string, sub: string)
    decreases |s|
  {
    sub <= s || (s != [] && Contains(s[1..], sub))
  }

  /** `Contains` holds exactly when `sub` occurs somewhere in `s`. */
  lemma {:induction false} ContainsIff(s: string, sub: string)
    ensures Contains(s, sub) <==> Occurs(s, sub)
    decreases |s|
  {
    if sub <= s {
      assert OccursAt(s, sub, 0);
    } else if s != [] {
      ContainsIff(s[1..], sub);
      if Contains(s[1..], sub) {
        var i: nat :| OccursAt(s[1..], sub, i);
        assert s[i + 1..i + 1 + |sub|] == s[1..][i..i + |sub|];
        assert OccursAt(s, sub, i + 1);
      } else {
        forall i: nat | OccursAt(s, sub, i) ensures false {
          if i > 0 {
            assert s[1..][i - 1..i - 1 + |sub|] == s[i..i + |sub|];
            assert OccursAt(s[1..], sub, i - 1);
          }
        }
      }
    } else {
      forall i: nat | OccursAt(s, sub, i) ensures false {
      }
    }
  }
}
