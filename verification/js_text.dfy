/** The few string primitives the graphing pages rely on: the JavaScript
    white-space class (shared by the regular-expression class `\s` and by
    `String.prototype.trim`), trimming, blankness and ASCII letters. */
module JsText {

  /** White space and line terminators as JavaScript defines them. */
  predicate IsJsSpace(c: char) {
    || c == '\t' || c == '\n' || c == '\U{B}' || c == '\U{C}' || c == '\r'
    || c == ' ' || c == '\U{A0}' || c == '\U{1680}'
    || ('\U{2000}' <= c <= '\U{200A}')
    || c == '\U{2028}' || c == '\U{2029}' || c == '\U{202F}' || c == '\U{205F}'
    || c == '\U{3000}' || c == '\U{FEFF}'
  }

  /** Every character is white space (the empty string included). */
  predicate Blank(s: string) {
    forall i {:trigger IsJsSpace(s[i])} :: 0 <= i < |s| ==> IsJsSpace(s[i])
  }

  /** Every character of `s[lo..hi]` is white space. */
  predicate BlankRange(s: string, lo: nat, hi: nat)
    requires lo <= hi <= |s|
  {
    forall t {:trigger IsJsSpace(s[t])} :: lo <= t < hi ==> IsJsSpace(s[t])
  }

  predicate IsAsciiUpper(c: char) { 'A' <= c <= 'Z' }

  predicate IsAsciiLower(c: char) { 'a' <= c <= 'z' }

  /** The regular-expression class `[a-zA-Z]`. */
  predicate IsAsciiLetter(c: char) { IsAsciiUpper(c) || IsAsciiLower(c) }

  predicate IsDigit(c: char) { '0' <= c <= '9' }

  /** ASCII lower-casing; every other character is left alone. Under the `i`
      flag without `u`, JavaScript never equates a non-ASCII character with
      an ASCII one, so this is the folding that matters for ASCII keywords. */
  function LowerAscii(c: char): (r: char)
    ensures IsAsciiUpper(c) ==> IsAsciiLower(r) && r as int == c as int + 32
    ensures !IsAsciiUpper(c) ==> r == c
  {
    if IsAsciiUpper(c) then (c as int + 32) as char else c
  }

  /** `s` spelled case-insensitively as the lower-case ASCII word `w`. */
  predicate MatchesWordIgnoringCase(s: string, w: string) {
    |s| == |w| && forall i :: 0 <= i < |s| ==> LowerAscii(s[i]) == w[i]
  }

  /** The first index at or after `i` that is not white space (or `|s|`). */
  function SkipSpace(s: string, i: nat): (j: nat)
    requires i <= |s|
    ensures i <= j <= |s|
    ensures BlankRange(s, i, j)
    ensures j < |s| ==> !IsJsSpace(s[j])
    decreases |s| - i
  {
    if i < |s| && IsJsSpace(s[i]) then SkipSpace(s, i + 1) else i
  }

  /** One past the last index before `j`, not below `i`, that is not white space. */
  function SkipSpaceBack(s: string, i: nat, j: nat): (k: nat)
    requires i <= j <= |s|
    ensures i <= k <= j
    ensures BlankRange(s, k, j)
    ensures k > i ==> !IsJsSpace(s[k - 1])
    decreases j
  {
    if j > i && IsJsSpace(s[j - 1]) then SkipSpaceBack(s, i, j - 1) else j
  }

  /** `String.prototype.trim`: drop leading and trailing white space. */
  function Trim(s: string): (r: string)
    ensures |r| <= |s|
    ensures |r| > 0 ==> !IsJsSpace(r[0]) && !IsJsSpace(r[|r| - 1])
    ensures exists lo, hi :: 0 <= lo <= hi <= |s| && r == s[lo..hi]
                             && BlankRange(s, 0, lo) && BlankRange(s, hi, |s|)
  {
    var lo := SkipSpace(s, 0);
    var hi := SkipSpaceBack(s, lo, |s|);
    s[lo..hi]
  }

  /** `s.trim() === ''` exactly when `s` is blank. */
  lemma {:induction false} TrimEmptyIffBlank(s: string)
    ensures Trim(s) == [] <==> Blank(s)
  {
    var lo := SkipSpace(s, 0);
    var hi := SkipSpaceBack(s, lo, |s|);
    if Blank(s) {
      assert lo == |s|;
    } else {
      var i :| 0 <= i < |s| && !IsJsSpace(s[i]);
      assert lo < |s| && !IsJsSpace(s[lo]);
      assert hi > lo;
    }
  }

  /** Trimming a string with no white space at either end changes nothing. */
  lemma TrimTrimmed(s: string)
    requires |s| > 0 ==> !IsJsSpace(s[0]) && !IsJsSpace(s[|s| - 1])
    ensures Trim(s) == s
  {
    var lo := SkipSpace(s, 0);
    var hi := SkipSpaceBack(s, lo, |s|);
    if |s| > 0 {
      assert lo == 0;
      assert hi == |s|;
    }
  }
}
