/** The character classes of JavaScript's regular expressions: \d, \w and \s. */
module Text {

  predicate IsDigit(c: char) { '0' <= c <= '9' }

  predicate IsWord(c: char) {
    IsDigit(c) || 'a' <= c <= 'z' || 'A' <= c <= 'Z' || c == '_'
  }

  predicate IsSpace(c: char) {
    c == ' ' || c == '\t' || c == '\n' || c == '\r' || c == 0xb as char || c == 0xc as char || c == 0xa0 as char
    || c == 0x1680 as char || 0x2000 as char <= c <= 0x200a as char || c == 0x2028 as char || c == 0x2029 as char
    || c == 0x202f as char || c == 0x205f as char || c == 0x3000 as char || c == 0xfeff as char
  }

  predicate AllSpace(s: string, i: nat, j: nat) {
    i <= j <= |s| && forall k | i <= k < j :: IsSpace(s[k])
  }

  /** Where the blanks that begin at `i` end. */
  function SpaceEnd(s: string, i: nat): (j: nat)
    requires i <= |s|
    ensures AllSpace(s, i, j) && (j == |s| || !IsSpace(s[j]))
    decreases |s| - i
  {
    if i < |s| && IsSpace(s[i]) then SpaceEnd(s, i + 1) else i
  }

  lemma {:induction false} SpaceEndIs(s: string, i: nat, j: nat)
    requires AllSpace(s, i, j) && (j < |s| ==> !IsSpace(s[j]))
    ensures SpaceEnd(s, i) == j
    decreases j - i
  {
    if i < j { SpaceEndIs(s, i + 1, j); }
  }

  lemma {:induction false} SpaceEndBounds(s: string, i: nat, a: nat, g: nat)
    requires i <= g < |s| && AllSpace(s, i, a) && !IsSpace(s[g])
    ensures a <= SpaceEnd(s, i) <= g
    decreases a - i
  {
    hide IsSpace;
    if i < a { SpaceEndBounds(s, i + 1, a, g); }
  }

  /** Where the blanks before `n` begin. */
  function SpaceStart(s: string, n: nat): (k: nat)
    requires n <= |s|
    ensures AllSpace(s, k, n) && (k == 0 || !IsSpace(s[k - 1]))
  {
    if n > 0 && IsSpace(s[n - 1]) then SpaceStart(s, n - 1) else n
  }

  lemma {:induction false} SpaceStartIs(s: string, k: nat, n: nat)
    requires AllSpace(s, k, n) && (k == 0 || !IsSpace(s[k - 1]))
    ensures SpaceStart(s, n) == k
    decreases n
  {
    if k < n { SpaceStartIs(s, k, n - 1); }
  }

  lemma {:induction false} SpaceStartBounds(s: string, b: nat, n: nat)
    requires AllSpace(s, b, n)
    ensures SpaceStart(s, n) <= b
    decreases n
  {
    hide IsSpace;
    if b < n { SpaceStartBounds(s, b, n - 1); }
  }

  /** Cut out of a longer text, a stretch of blanks begins where it did, or at the cut. */
  lemma {:induction false} SpaceStartInSlice(s: string, k: nat, r: nat, n: nat)
    requires k <= n <= r <= |s|
    ensures SpaceStart(s[k..r], n - k) == (if SpaceStart(s, n) < k then k else SpaceStart(s, n)) - k
    decreases n
  {
    hide IsSpace;
    if n > k {
      assert s[k..r][n - k - 1] == s[n - 1];
      if IsSpace(s[n - 1]) { SpaceStartInSlice(s, k, r, n - 1); }
    } else {
      SpaceStartAtMost(s, n);
    }
  }

  lemma SpaceStartAtMost(s: string, n: nat)
    requires n <= |s|
    ensures SpaceStart(s, n) <= n
  {}
}
