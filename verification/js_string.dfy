/**
 The part of JavaScript's string semantics the chat client relies on:
 `String.prototype.trim` and the truthiness of the string it returns.

 `trim` removes, from both ends, every code point that ECMAScript classifies
 as WhiteSpace (TAB, VT, FF, ZWNBSP and the Unicode "Zs" space separators) or
 as a LineTerminator (LF, CR, LS, PS). All of these lie in the Basic
 Multilingual Plane, so reading a string as a sequence of Unicode scalar
 values (Dafny's `char`) rather than UTF-16 code units changes nothing here.
 */
module JsString {

  /** WhiteSpace or LineTerminator code point, as stripped by `trim`. */
  predicate IsTrimmable(c: char) {
    // WhiteSpace: TAB, VT, FF, ZWNBSP
    || c == '\U{0009}' || c == '\U{000B}' || c == '\U{000C}' || c == '\U{FEFF}'
    // WhiteSpace: the Zs category
    || c == '\U{0020}' || c == '\U{00A0}' || c == '\U{1680}'
    || ('\U{2000}' <= c <= '\U{200A}')
    || c == '\U{202F}' || c == '\U{205F}' || c == '\U{3000}'
    // LineTerminator: LF, CR, LS, PS
    || c == '\U{000A}' || c == '\U{000D}' || c == '\U{2028}' || c == '\U{2029}'
  }

  /** Every character of `s` is one that `trim` strips. */
  predicate AllTrimmable(s: string) {
    forall k :: 0 <= k < |s| ==> IsTrimmable(s[k])
  }

  /** Number of trimmable characters at the front of `s`. */
  function LeadingCount(s: string): (n: nat)
    ensures n <= |s|
    ensures forall k :: 0 <= k < n ==> IsTrimmable(s[k])
    ensures n < |s| ==> !IsTrimmable(s[n])
    decreases |s|
  {
    if s != [] && IsTrimmable(s[0]) then 1 + LeadingCount(s[1..]) else 0
  }

  /** Index at which the run of trimmable characters ending `s` starts. */
  function TrailingStart(s: string): (m: nat)
    ensures m <= |s|
    ensures forall k :: m <= k < |s| ==> IsTrimmable(s[k])
    ensures 0 < m ==> !IsTrimmable(s[m - 1])
    decreases |s|
  {
    if s != [] && IsTrimmable(s[|s| - 1]) then TrailingStart(s[..|s| - 1]) else |s|
  }

  /**
   JavaScript `s.trim()`: the contiguous slice of `s` left after removing the
   trimmable characters at both ends. It is empty exactly when every
   character of `s` is trimmable; otherwise it starts and ends with a
   character that is not.
   */
  function Trim(s: string): (r: string)
    ensures LeadingCount(s) + |r| <= |s|
    ensures r == s[LeadingCount(s)..LeadingCount(s) + |r|]
    ensures forall k :: LeadingCount(s) + |r| <= k < |s| ==> IsTrimmable(s[k])
    ensures r != [] ==> !IsTrimmable(r[0]) && !IsTrimmable(r[|r| - 1])
    ensures r == [] <==> AllTrimmable(s)
  {
    var n := LeadingCount(s);
    var t := s[n..];
    var m := TrailingStart(t);
    TrimFacts(s, n, t, m);
    t[..m]
  }

  /** The requires shared by the lemmas about `Trim`'s body. */
  predicate TrimParts(s: string, n: nat, t: string, m: nat) {
    n == LeadingCount(s) && t == s[n..] && m == TrailingStart(t)
  }

  /** The facts `Trim` promises, for the slice its body computes. */
  lemma TrimFacts(s: string, n: nat, t: string, m: nat)
    requires TrimParts(s, n, t, m)
    ensures n + m <= |s| && t[..m] == s[n..n + m]
    ensures forall k :: n + m <= k < |s| ==> IsTrimmable(s[k])
    ensures t[..m] != [] ==> !IsTrimmable(s[n]) && !IsTrimmable(s[n + m - 1])
    ensures t[..m] == [] <==> AllTrimmable(s)
  {
    TrimDropsTrailing(s, n, t, m);
    if 0 < m {
      assert s[n + m - 1] == t[m - 1];
    }
    TrimEmptyIff(s, n, t, m);
  }

  lemma TrimDropsTrailing(s: string, n: nat, t: string, m: nat)
    requires TrimParts(s, n, t, m)
    ensures forall k :: n + m <= k < |s| ==> IsTrimmable(s[k])
  {
    forall k | n + m <= k < |s|
      ensures IsTrimmable(s[k])
    {
      assert s[k] == t[k - n];
    }
  }

  /** A kept first character is never part of the trailing run. */
  lemma KeptHeadSurvives(s: string, n: nat, t: string, m: nat)
    requires TrimParts(s, n, t, m) && n < |s|
    ensures 0 < m
  {
    assert t[0] == s[n];
  }

  lemma TrimEmptyIff(s: string, n: nat, t: string, m: nat)
    requires TrimParts(s, n, t, m)
    ensures m == 0 <==> AllTrimmable(s)
  {
    if n < |s| {
      KeptHeadSurvives(s, n, t, m);
    }
  }

  /**
   A string is "blank" when `s.trim()` is the empty string, which is the one
   string JavaScript treats as falsy.
   */
  predicate IsBlank(s: string) {
    Trim(s) == []
  }

  /** Blankness is decided character by character: both directions. */
  lemma BlankIffAllTrimmable(s: string)
    ensures IsBlank(s) <==> AllTrimmable(s)
  {
  }

  /** A single space is blank although it is not the empty string. */
  lemma SpaceIsBlank()
    ensures " " != [] && IsBlank(" ")
  {
    assert AllTrimmable(" ");
  }
}
