/**
 * The few JavaScript string built-ins the extension relies on: `trim`,
 * `Array.prototype.join` and suffix tests. Strings are sequences of code
 * points; JavaScript's UTF-16 code units and surrogate pairs are not modelled.
 *
 * The run functions and lemmas take the character class as a parameter `p`,
 * so that their proofs do not depend on what the class contains.
 */
module JsText {

  /** ECMAScript LineTerminator code points (LF, CR, LS, PS). */
  predicate IsLineTerminator(c: char) {
    c == '\n' || c == '\r' || c == '\U{2028}' || c == '\U{2029}'
  }

  /**
   * The code points `String.prototype.trim` removes: ECMAScript WhiteSpace
   * (TAB, VT, FF, SP, NBSP, ZWNBSP and the Unicode space separators) and
   * the line terminators.
   */
  predicate IsTrimmable(c: char) {
    c == '\t' || c == '\U{000B}' || c == '\U{000C}' || c == ' ' || c == '\U{00A0}' || c == '\U{FEFF}'
    || c == '\U{1680}' || ('\U{2000}' <= c <= '\U{200A}') || c == '\U{202F}' || c == '\U{205F}'
    || c == '\U{3000}' || IsLineTerminator(c)
  }

  predicate All(s: string, p: char -> bool) {
    forall i :: 0 <= i < |s| ==> p(s[i])
  }

  predicate AllTrimmable(s: string) {
    All(s, IsTrimmable)
  }

  predicate EndsWith(s: string, suffix: string) {
    |suffix| <= |s| && s[|s| - |suffix|..] == suffix
  }

  /** The end of the run of class `p` that starts at index `k` of `s`. */
  function RunEnd(s: string, k: nat, p: char -> bool): (r: nat)
    requires k <= |s|
    decreases |s| - k
    ensures k <= r <= |s|
    ensures forall j :: k <= j < r ==> p(s[j])
    ensures r < |s| ==> !p(s[r])
  {
    if k == |s| || !p(s[k]) then k else RunEnd(s, k + 1, p)
  }

  /** A run of class `p` from `k` that stops at `r`, before a code point not in `p` or the end, is the one RunEnd finds. */
  lemma {:induction false} RunEndIs(s: string, k: nat, r: nat, p: char -> bool)
    requires k <= r <= |s|
    requires forall j :: k <= j < r ==> p(s[j])
    requires r < |s| ==> !p(s[r])
    decreases r - k
    ensures RunEnd(s, k, p) == r
  {
    if k < r { RunEndIs(s, k + 1, r, p); }
  }

  /** The start of the run of class `p` that ends at index `hi` of `s`, going no lower than `lo`. */
  function RunStart(s: string, lo: nat, hi: nat, p: char -> bool): (r: nat)
    requires lo <= hi <= |s|
    decreases hi
    ensures lo <= r <= hi
    ensures forall j :: r <= j < hi ==> p(s[j])
    ensures lo < r ==> !p(s[r - 1])
  {
    if hi == lo || !p(s[hi - 1]) then hi else RunStart(s, lo, hi - 1, p)
  }

  /**
   * `s` with its leading and trailing runs of class `p` removed: the result
   * is a slice of `s` outside of which every code point is of class `p`, and
   * it neither starts nor ends with one; it is empty exactly when all of `s`
   * is of class `p`.
   */
  function Strip(s: string, p: char -> bool): (r: string)
    ensures var lead := RunEnd(s, 0, p);
      lead + |r| <= |s| && r == s[lead..lead + |r|]
      && forall k :: 0 <= k < |s| && !(lead <= k < lead + |r|) ==> p(s[k])
    ensures r != [] ==> !p(r[0]) && !p(r[|r| - 1])
    ensures r == [] <==> All(s, p)
  {
    var i := RunEnd(s, 0, p);
    var j := RunStart(s, i, |s|, p);
    s[i..j]
  }

  /**
   * `String.prototype.trim`: Strip with the ECMAScript whitespace and line
   * terminators as the class.
   */
  function Trim(s: string): (r: string)
    ensures |r| <= |s|
    ensures r == [] <==> AllTrimmable(s)
    ensures r != [] ==> !IsTrimmable(r[0]) && !IsTrimmable(r[|r| - 1])
  {
    Strip(s, IsTrimmable)
  }

  /**
   * `Array.prototype.join` on strings: the parts with `sep` between
   * neighbours, so the result starts with the first part and ends with the
   * last.
   */
  function Join(parts: seq<string>, sep: string): (r: string)
    ensures |parts| > 0 ==> parts[0] <= r
    ensures |parts| > 0 ==> EndsWith(r, parts[|parts| - 1])
  {
    if |parts| == 0 then ""
    else if |parts| == 1 then parts[0]
    else parts[0] + sep + Join(parts[1..], sep)
  }

  lemma AllAppend(a: string, b: string, p: char -> bool)
    ensures All(a + b, p) <==> All(a, p) && All(b, p)
  {
    if All(a + b, p) {
      forall k | 0 <= k < |a| ensures p(a[k]) { assert a[k] == (a + b)[k]; }
      forall k | 0 <= k < |b| ensures p(b[k]) { assert b[k] == (a + b)[|a| + k]; }
    }
    if All(a, p) && All(b, p) {
      forall k | 0 <= k < |a + b| ensures p((a + b)[k]) {
        if k < |a| { assert (a + b)[k] == a[k]; } else { assert (a + b)[k] == b[k - |a|]; }
      }
    }
  }

  /**
   * With a separator of class `p`, the joined string is all of class `p`
   * exactly when every part is.
   */
  lemma {:induction false} JoinAll(parts: seq<string>, sep: string, p: char -> bool)
    requires All(sep, p)
    ensures All(Join(parts, sep), p) <==> forall k :: 0 <= k < |parts| ==> All(parts[k], p)
  {
    if |parts| > 1 {
      JoinAll(parts[1..], sep, p);
      AllAppend(parts[0], sep, p);
      AllAppend(parts[0] + sep, Join(parts[1..], sep), p);
      if forall k :: 1 <= k < |parts| ==> All(parts[k], p) {
        assert forall k :: 0 <= k < |parts| - 1 ==> All(parts[1..][k], p);
      }
      if forall k :: 0 <= k < |parts| - 1 ==> All(parts[1..][k], p) {
        forall k | 1 <= k < |parts| ensures All(parts[k], p) { assert parts[k] == parts[1..][k - 1]; }
      }
    }
  }

}
