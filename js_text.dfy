/**
 * The semantics of ECMAScript's String.prototype.trim, which the passcode form applies
 * to its input before verifying it and before deciding whether submitting is allowed.
 * trim removes every leading and trailing WhiteSpace or LineTerminator code point
 * (sections 12.2 and 12.3 of ECMA-262).
 */
module JsText {

  /** WhiteSpace (TAB, VT, FF, SP, NBSP, ZWNBSP and the category Zs code points) or
      LineTerminator (LF, CR, LS, PS), by code point. */
  predicate IsWhiteSpace(c: char) {
    var n := c as int;
    (0x9 <= n <= 0xD) || n == 0x20 || n == 0xA0 || n == 0x1680 || (0x2000 <= n <= 0x200A)
    || n == 0x2028 || n == 0x2029 || n == 0x202F || n == 0x205F || n == 0x3000 || n == 0xFEFF
  }

  /** Every character of s at positions lo up to (not including) hi is white space. */
  predicate WhiteSpaceBetween(s: string, lo: int, hi: int)
    requires 0 <= lo && hi <= |s|
  {
    forall k :: lo <= k < hi ==> IsWhiteSpace(s[k])
  }

  /** Scans forward from i past white space: the index of the first other character, or |s|. */
  function SkipForward(s: string, i: nat): (n: nat)
    requires i <= |s|
    ensures i <= n <= |s| && WhiteSpaceBetween(s, i, n)
    ensures n < |s| ==> !IsWhiteSpace(s[n])
    decreases |s| - i
  {
    if i < |s| && IsWhiteSpace(s[i]) then SkipForward(s, i + 1) else i
  }

  /** Scans backward from j, not below lo, past white space: the index just after the last
      other character, or lo. */
  function SkipBackward(s: string, lo: nat, j: nat): (n: nat)
    requires lo <= j <= |s|
    ensures lo <= n <= j && WhiteSpaceBetween(s, n, j)
    ensures lo < n ==> !IsWhiteSpace(s[n - 1])
  {
    if lo < j && IsWhiteSpace(s[j - 1]) then SkipBackward(s, lo, j - 1) else j
  }

  /** String.prototype.trim: the piece of s between its leading and its trailing white space. */
  function Trim(s: string): (r: string)
    ensures |r| <= |s|
    ensures r != [] ==> !IsWhiteSpace(r[0]) && !IsWhiteSpace(r[|r| - 1])
    ensures r == [] <==> WhiteSpaceBetween(s, 0, |s|)
  {
    var i := SkipForward(s, 0);
    var j := SkipBackward(s, i, |s|);
    assert j == i ==> WhiteSpaceBetween(s, 0, |s|);
    assert j > i ==> s[i..j][0] == s[i];
    s[i..j]
  }

  /** A string with no white space at either end is its own trim. */
  lemma TrimOfUnpadded(s: string)
    requires s != [] ==> !IsWhiteSpace(s[0]) && !IsWhiteSpace(s[|s| - 1])
    ensures Trim(s) == s
  {
  }

  /** Trimming undoes any white space padding around a string that has none at its ends. */
  lemma TrimOfPadded(left: string, s: string, right: string)
    requires WhiteSpaceBetween(left, 0, |left|) && WhiteSpaceBetween(right, 0, |right|)
    requires s != [] && !IsWhiteSpace(s[0]) && !IsWhiteSpace(s[|s| - 1])
    ensures Trim(left + s + right) == s
  {
    var w := left + s + right;
    var lo, hi := |left|, |left| + |s|;
    assert w[lo] == s[0] && w[hi - 1] == s[|s| - 1];
    forall k | 0 <= k < lo ensures IsWhiteSpace(w[k]) { assert w[k] == left[k]; }
    forall k | hi <= k < |w| ensures IsWhiteSpace(w[k]) { assert w[k] == right[k - hi]; }
    var i := SkipForward(w, 0);
    var j := SkipBackward(w, i, |w|);
    assert i == lo;
    assert j == hi;
    assert w[lo..hi] == s;
  }
}
