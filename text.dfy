/**
 * Whitespace and trimming as JavaScript defines them.
 *
 * `String.prototype.trim` removes, and the regular-expression class `\s` matches,
 * exactly the code points of ECMAScript's WhiteSpace and LineTerminator productions;
 * `IsSpace` lists them.
 */
module Text {

  /** The code points that `trim` strips and that `\s` matches (so `\S` matches every other one). */
  predicate IsSpace(c: char) {
    || c == '\t' || c == '\n' || c == '\U{B}' || c == '\U{C}' || c == '\r' || c == ' '
    || c == '\U{A0}' || c == '\U{1680}' || ('\U{2000}' <= c <= '\U{200A}')
    || c == '\U{2028}' || c == '\U{2029}' || c == '\U{202F}' || c == '\U{205F}'
    || c == '\U{3000}' || c == '\U{FEFF}'
  }

  /** Every character of `s` is whitespace (true of the empty string). */
  ghost predicate AllSpace(s: string) {
    forall i :: 0 <= i < |s| ==> IsSpace(s[i])
  }

  /** The index of the first non-whitespace character of `s` at or after `i` (`|s|` if none). */
  function SkipSpaceForward(s: string, i: nat): (k: nat)
    requires i <= |s|
    ensures i <= k <= |s|
    ensures forall j :: i <= j < k ==> IsSpace(s[j])
    ensures k == |s| || !IsSpace(s[k])
    decreases |s| - i
  {
    if i < |s| && IsSpace(s[i]) then SkipSpaceForward(s, i + 1) else i
  }

  /** The end of `s[lo..k]` once its trailing whitespace is dropped. */
  function SkipSpaceBackward(s: string, lo: nat, k: nat): (e: nat)
    requires lo <= k <= |s|
    ensures lo <= e <= k
    ensures forall j :: e <= j < k ==> IsSpace(s[j])
    ensures e == lo || !IsSpace(s[e - 1])
  {
    if lo < k && IsSpace(s[k - 1]) then SkipSpaceBackward(s, lo, k - 1) else k
  }

  /**
   * JavaScript's `s.trim()`: `s` without leading and trailing whitespace. The result is
   * empty exactly when `s` is all whitespace; otherwise it starts and ends with a
   * non-whitespace character and is what remains of `s` once a whitespace prefix and a
   * whitespace suffix are cut off.
   */
  function Trim(s: string): (r: string)
    ensures r == [] <==> AllSpace(s)
    ensures r != [] ==> !IsSpace(r[0]) && !IsSpace(r[|r| - 1])
    ensures exists i :: 0 <= i <= |s| - |r| && r == s[i..i + |r|]
              && AllSpace(s[..i]) && AllSpace(s[i + |r|..])
  {
    var lo := SkipSpaceForward(s, 0);
    var hi := SkipSpaceBackward(s, lo, |s|);
    assert AllSpace(s[..lo]) && AllSpace(s[hi..]);
    s[lo..hi]
  }

  /** Trimming an already trimmed string changes nothing. */
  lemma TrimIdempotent(s: string)
    ensures Trim(Trim(s)) == Trim(s)
  {
    var r := Trim(s);
    if r != [] {
      assert SkipSpaceForward(r, 0) == 0;
      assert SkipSpaceBackward(r, 0, |r|) == |r|;
    }
  }
}
