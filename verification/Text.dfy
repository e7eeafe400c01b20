/** Text primitives: the parts of Python's `str` and `re` that several models rely on, over ASCII. */
module Text {
  import opened Wrappers

  /** ASCII characters matched by `\s` and removed by `str.strip()`. */
  predicate IsSpace(c: char) {
    9 <= c as int <= 13 || 28 <= c as int <= 32
  }

  /** `pat` occurs in `s` at `i`. */
  predicate At(s: string, i: nat, pat: string) {
    i + |pat| <= |s| && s[i..i + |pat|] == pat
  }

  function Lower(c: char): char {
    if 'A' <= c <= 'Z' then (c as int + 32) as char else c
  }

  /** `pat`, given in lower case, occurs at `i` up to ASCII case. */
  predicate AtNoCase(s: string, i: nat, pat: string) {
    i + |pat| <= |s| && forall k | 0 <= k < |pat| :: Lower(s[i + k]) == pat[k]
  }

  predicate AllSpace(s: string, i: nat, j: nat)
    requires i <= j <= |s|
  {
    forall k | i <= k < j :: IsSpace(s[k])
  }

  /** The first position from `i` on that holds no space. */
  function SkipSpace(s: string, i: nat): (r: nat)
    requires i <= |s|
    ensures i <= r <= |s| && AllSpace(s, i, r)
    ensures r < |s| ==> !IsSpace(s[r])
    decreases |s| - i
  {
    if i < |s| && IsSpace(s[i]) then SkipSpace(s, i + 1) else i
  }

  /** The start of the run of spaces that ends before `i`. */
  function RunStart(s: string, i: nat): (r: nat)
    requires i <= |s|
    ensures r <= i && AllSpace(s, r, i)
    ensures r > 0 ==> !IsSpace(s[r - 1])
  {
    if i > 0 && IsSpace(s[i - 1]) then RunStart(s, i - 1) else i
  }

  /** `str.rstrip()`. */
  function RStrip(s: string): (r: string)
    ensures r <= s && AllSpace(s, |r|, |s|)
    ensures r != "" ==> !IsSpace(r[|r| - 1])
  {
    s[..RunStart(s, |s|)]
  }

  /** The position of the first newline from `i` on, or the length. */
  function NextNewline(s: string, i: nat): (r: nat)
    requires i <= |s|
    ensures i <= r <= |s| && (r < |s| ==> s[r] == '\n')
    ensures forall k | i <= k < r :: s[k] != '\n'
    decreases |s| - i
  {
    if i < |s| && s[i] != '\n' then NextNewline(s, i + 1) else i
  }

  // ---------------------------------------------------------------- facts

  lemma AtChar(s: string, i: nat, pat: string, k: nat)
    requires At(s, i, pat) && k < |pat|
    ensures s[i + k] == pat[k]
  {
    assert s[i..i + |pat|][k] == s[i + k];
  }

  /** A character that differs from the pattern's rules out an occurrence. */
  lemma NotAt(s: string, i: nat, pat: string, k: nat)
    requires k < |pat| && i + k < |s| && s[i + k] != pat[k]
    ensures !At(s, i, pat)
  {
    if At(s, i, pat) { AtChar(s, i, pat, k); }
  }

  /** Two prefixes that end outside a run of spaces and differ only by spaces strip alike. */
  lemma SameStrip(s: string, i: nat, j: nat)
    requires i <= j <= |s| && AllSpace(s, i, j)
    ensures RStrip(s[..i]) == RStrip(s[..j])
  {
    RunStartUnique(s[..i], i, RunStart(s[..j], j));
  }

  /** A run start is the only position with its two properties. */
  lemma RunStartUnique(s: string, i: nat, r: nat)
    requires i <= |s|
    requires r <= i ==> AllSpace(s, r, i) && (r > 0 ==> !IsSpace(s[r - 1]))
    requires r <= i
    ensures RunStart(s, i) == r
  {
    var q := RunStart(s, i);
  }

  lemma SkipSpaceUnique(s: string, i: nat, r: nat)
    requires i <= r <= |s| && AllSpace(s, i, r) && (r < |s| ==> !IsSpace(s[r]))
    ensures SkipSpace(s, i) == r
  {
    var q := SkipSpace(s, i);
  }

  lemma NextNewlineUnique(s: string, i: nat, r: nat)
    requires i <= r <= |s| && (r < |s| ==> s[r] == '\n') && (forall k | i <= k < r :: s[k] != '\n')
    ensures NextNewline(s, i) == r
  {
    var q := NextNewline(s, i);
  }
}
