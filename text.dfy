/** Whitespace trimming as Python's `str.strip()` with no arguments performs it. */
module Text {

  /** The code points for which Python's `str.isspace()` holds. */
  predicate IsSpace(c: char) {
    var n := c as int;
    (9 <= n <= 13) || (28 <= n <= 32) || n == 0x85 || n == 0xA0 || n == 0x1680
    || (0x2000 <= n <= 0x200A) || n == 0x2028 || n == 0x2029 || n == 0x202F
    || n == 0x205F || n == 0x3000
  }

  /** Every character of `s` is whitespace (true of the empty string). */
  predicate Blank(s: string) {
    forall i :: 0 <= i < |s| ==> IsSpace(s[i])
  }

  /** The index of the first non-space character of `s` at or after `i` (`|s|` if none). */
  function SkipSpaces(s: string, i: nat): (k: nat)
    requires i <= |s|
    ensures i <= k <= |s|
    ensures forall j :: i <= j < k ==> IsSpace(s[j])
    ensures k == |s| || !IsSpace(s[k])
    decreases |s| - i
  {
    if i < |s| && IsSpace(s[i]) then SkipSpaces(s, i + 1) else i
  }

  /** The end of `s[lo..hi]` once its trailing whitespace is cut. */
  function SkipSpacesBack(s: string, lo: nat, hi: nat): (e: nat)
    requires lo <= hi <= |s|
    ensures lo <= e <= hi
    ensures forall j :: e <= j < hi ==> IsSpace(s[j])
    ensures e == lo || !IsSpace(s[e - 1])
  {
    if lo < hi && IsSpace(s[hi - 1]) then SkipSpacesBack(s, lo, hi - 1) else hi
  }

  /**
   * `s.strip()`: `s` with only its leading and trailing whitespace cut.
   * It is empty exactly when `s` is blank, and otherwise bounded by non-spaces.
   */
  function Strip(s: string): (r: string)
    ensures var k := SkipSpaces(s, 0); var e := SkipSpacesBack(s, k, |s|);
      && r == s[k..e]
      && (forall i :: 0 <= i < k ==> IsSpace(s[i]))
      && (forall i :: e <= i < |s| ==> IsSpace(s[i]))
    ensures r == [] <==> Blank(s)
    ensures r != [] ==> !IsSpace(r[0]) && !IsSpace(r[|r| - 1])
  {
    var k := SkipSpaces(s, 0);
    s[k..SkipSpacesBack(s, k, |s|)]
  }

  /** A string with no whitespace at either end is left as it is, so stripping twice is stripping once. */
  lemma StripKeepsTrimmed(s: string)
    requires s == [] || (!IsSpace(s[0]) && !IsSpace(s[|s| - 1]))
    ensures Strip(s) == s
    ensures Strip(Strip(s)) == Strip(s)
  {
  }
}
