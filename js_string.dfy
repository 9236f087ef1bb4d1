/**
 * The three `String.prototype` methods the components rely on: `trim`,
 * `toLowerCase` and `includes`. Strings are sequences of characters;
 * lowercasing is the ASCII letter map (no locale or Unicode case folding).
 */
module JsString {

  /** The ECMAScript WhiteSpace and LineTerminator code points outside the range U+2000..U+200A. */
  const WhiteSpaceChars: set<char> := {
    '\t', '\n', '\U{B}', '\U{C}', '\r', ' ', '\U{A0}', '\U{1680}',
    '\U{2028}', '\U{2029}', '\U{202F}', '\U{205F}', '\U{3000}', '\U{FEFF}'
  }

  /** A character `trim` strips: ECMAScript WhiteSpace or LineTerminator. */
  predicate IsWhiteSpace(c: char) {
    c in WhiteSpaceChars || '\U{2000}' <= c <= '\U{200A}'
  }

  predicate AllWhiteSpace(s: string) {
    forall i :: 0 <= i < |s| ==> IsWhiteSpace(s[i])
  }

  /** Neither end of `s` is white space. */
  predicate IsTrimmed(s: string) {
    s == [] || (!IsWhiteSpace(s[0]) && !IsWhiteSpace(s[|s| - 1]))
  }

  /** `r` is `s` with `i` white-space characters cut from the front and white space only cut from the back. */
  ghost predicate TrimmedAt(r: string, s: string, i: int) {
    && 0 <= i && i + |r| <= |s|
    && (forall k :: 0 <= k < |r| ==> r[k] == s[i + k])
    && (forall k :: 0 <= k < i ==> IsWhiteSpace(s[k]))
    && (forall k :: i + |r| <= k < |s| ==> IsWhiteSpace(s[k]))
  }

  /** The index of the first character at or after `i` that is not white space, or `|s|` when there is none. */
  function SkipForward(s: string, i: nat): (j: nat)
    requires i <= |s|
    ensures i <= j <= |s|
    ensures forall k :: i <= k < j ==> IsWhiteSpace(s[k])
    ensures j < |s| ==> !IsWhiteSpace(s[j])
    decreases |s| - i
  {
    if i < |s| && IsWhiteSpace(s[i]) then SkipForward(s, i + 1) else i
  }

  /** One past the last character before `j`, and not before `lo`, that is not white space, or `lo` when there is none. */
  function SkipBackward(s: string, lo: nat, j: nat): (e: nat)
    requires lo <= j <= |s|
    ensures lo <= e <= j
    ensures forall k :: e <= k < j ==> IsWhiteSpace(s[k])
    ensures lo < e ==> !IsWhiteSpace(s[e - 1])
    decreases j
  {
    if lo < j && IsWhiteSpace(s[j - 1]) then SkipBackward(s, lo, j - 1) else j
  }

  /** `String.prototype.trim`: the middle of `s` between its leading and trailing white space. */
  function Trim(s: string): (r: string)
    ensures IsTrimmed(r)
    ensures TrimmedAt(r, s, SkipForward(s, 0))
  {
    var start := SkipForward(s, 0);
    var end := SkipBackward(s, start, |s|);
    assert forall k :: 0 <= k < end - start ==> s[start..end][k] == s[start + k];
    s[start..end]
  }

  /** A trimmed string is empty (falsy in JavaScript) exactly when the input held only white space. */
  lemma TrimEmptyIff(s: string)
    ensures Trim(s) == [] <==> AllWhiteSpace(s)
  {
    TrimmedAtEmptyIff(Trim(s), s, SkipForward(s, 0));
  }

  /** What is left between cut white space is empty exactly when everything was white space. */
  lemma TrimmedAtEmptyIff(r: string, s: string, i: int)
    requires TrimmedAt(r, s, i) && IsTrimmed(r)
    ensures r == [] <==> AllWhiteSpace(s)
  {
    if r == [] {
      forall k | 0 <= k < |s| ensures IsWhiteSpace(s[k]) {
        if k < i {
          assert IsWhiteSpace(s[k]);
        } else {
          assert i + |r| <= k;
        }
      }
    } else {
      assert r[0] == s[i] && !IsWhiteSpace(s[i]);
    }
  }

  /** A string with no white space at either end is its own trim. */
  lemma TrimOfTrimmed(s: string)
    requires IsTrimmed(s)
    ensures Trim(s) == s
  {
    if s != [] {
      assert SkipForward(s, 0) == 0;
      assert SkipBackward(s, 0, |s|) == |s|;
    }
  }

  /** Trimming the result of a trim changes nothing. */
  lemma TrimIdempotent(s: string)
    ensures Trim(Trim(s)) == Trim(s)
  {
    TrimOfTrimmed(Trim(s));
  }

  function LowerChar(c: char): char {
    if 'A' <= c <= 'Z' then (c as int + ('a' as int - 'A' as int)) as char else c
  }

  /** `String.prototype.toLowerCase`, over the ASCII letters. */
  function ToLowerCase(s: string): (r: string)
    ensures |r| == |s|
    ensures forall i :: 0 <= i < |s| ==> !('A' <= r[i] <= 'Z')
    ensures forall i :: 0 <= i < |s| ==> r[i] == s[i] || ('A' <= s[i] <= 'Z' && r[i] as int == s[i] as int + 32)
  {
    seq(|s|, i requires 0 <= i < |s| => LowerChar(s[i]))
  }

  lemma ToLowerCaseIdempotent(s: string)
    ensures ToLowerCase(ToLowerCase(s)) == ToLowerCase(s)
  {
  }

  /** `sub` occurs in `s` starting at index `i`. */
  ghost predicate OccursAt(s: string, sub: string, i: int) {
    0 <= i && i + |sub| <= |s| && s[i..i + |sub|] == sub
  }

  /** `String.prototype.includes`: `sub` occurs somewhere in `s`. */
  function Includes(s: string, sub: string): (b: bool)
    ensures b <==> exists i :: OccursAt(s, sub, i)
    decreases |s|
  {
    if sub <= s then
      assert OccursAt(s, sub, 0);
      true
    else if s == [] then
      false
    else
      var b := Includes(s[1..], sub);
      assert b <==> exists i :: OccursAt(s, sub, i) by {
        forall i | 0 <= i ensures OccursAt(s[1..], sub, i) <==> OccursAt(s, sub, i + 1) {
          OccursShifted(s, sub, i);
        }
        if exists i :: OccursAt(s, sub, i) {
          var i :| OccursAt(s, sub, i);
          assert i != 0 by { assert s[..|sub|] != sub; }
          OccursShifted(s, sub, i - 1);
        }
      }
      b
  }

  /** An occurrence in the tail of `s` is an occurrence in `s` one index further on. */
  lemma OccursShifted(s: string, sub: string, i: int)
    requires s != [] && 0 <= i
    ensures OccursAt(s[1..], sub, i) <==> OccursAt(s, sub, i + 1)
  {
    if i + 1 + |sub| <= |s| {
      assert s[1..][i..i + |sub|] == s[i + 1..i + 1 + |sub|];
    }
  }

  /** Every string includes the empty string. */
  lemma IncludesEmpty(s: string)
    ensures Includes(s, "")
  {
    assert OccursAt(s, "", 0);
  }

}
