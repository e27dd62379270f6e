/** The string operations the scripts use: `str.strip()`, `str.lower()`,
    `str.find()`, `str.startswith('-')` and right alignment in an f-string. */
module PyText {

  /** Python's `str.isspace()` for one character. */
  predicate IsSpace(c: char) {
    var n := c as int;
    (9 <= n <= 13) || (28 <= n <= 32) || n == 0x85 || n == 0xA0 || n == 0x1680
    || (0x2000 <= n <= 0x200A) || n == 0x2028 || n == 0x2029 || n == 0x202F
    || n == 0x205F || n == 0x3000
  }

  predicate AllSpace(s: string) {
    forall i :: 0 <= i < |s| ==> IsSpace(s[i])
  }

  /** `s.lstrip()`: the longest suffix of s that does not start with whitespace. */
  function TrimLeft(s: string): (r: string)
    ensures |r| <= |s| && r == s[|s| - |r|..]
    ensures AllSpace(s[..|s| - |r|])
    ensures r == [] || !IsSpace(r[0])
  {
    if s != [] && IsSpace(s[0]) then
      var r := TrimLeft(s[1..]);
      assert s[..|s| - |r|] == [s[0]] + s[1..][..|s| - 1 - |r|];
      r
    else s
  }

  /** `s.rstrip()`: the longest prefix of s that does not end with whitespace. */
  function TrimRight(s: string): (r: string)
    ensures |r| <= |s| && r == s[..|r|]
    ensures AllSpace(s[|r|..])
    ensures r == [] || !IsSpace(r[|r| - 1])
  {
    if s != [] && IsSpace(s[|s| - 1]) then
      var t := s[..|s| - 1];
      var r := TrimRight(t);
      assert s[|r|..] == t[|r|..] + [s[|s| - 1]];
      r
    else s
  }

  /** r sits in s at offset a, with only whitespace around it. */
  predicate Surrounded(s: string, a: int, r: string) {
    0 <= a && a + |r| <= |s| && s[a..a + |r|] == r
    && AllSpace(s[..a]) && AllSpace(s[a + |r|..])
  }

  /** `s.strip()`: s without its leading and trailing whitespace. */
  function Strip(s: string): (r: string)
    ensures r == [] || (!IsSpace(r[0]) && !IsSpace(r[|r| - 1]))
    ensures exists a :: Surrounded(s, a, r)
  {
    var t := TrimLeft(s);
    var r := TrimRight(t);
    TrimsSurround(s, t, r);
    assert r != [] ==> r[0] == t[0];
    r
  }

  /** A prefix r of a suffix t of s, where only whitespace was cut off both
      times, sits in s where t begins. */
  lemma TrimsSurround(s: string, t: string, r: string)
    requires |t| <= |s| && t == s[|s| - |t|..] && AllSpace(s[..|s| - |t|])
    requires |r| <= |t| && r == t[..|r|] && AllSpace(t[|r|..])
    ensures Surrounded(s, |s| - |t|, r)
  {
    var a := |s| - |t|;
    var mid, tail := s[a..a + |r|], s[a + |r|..];
    forall i | 0 <= i < |r|
      ensures mid[i] == r[i]
    {
      assert r[i] == t[i] == s[a + i];
    }
    forall i | 0 <= i < |tail|
      ensures IsSpace(tail[i])
    {
      assert tail[i] == t[|r|..][i];
    }
  }

  /** `c.lower()` on ASCII letters. */
  function LowerChar(c: char): char {
    if 'A' <= c <= 'Z' then (c as int + 32) as char else c
  }

  /** `s.lower()`, character by character. */
  function Lower(s: string): string {
    seq(|s|, i requires 0 <= i < |s| => LowerChar(s[i]))
  }

  predicate OccursAt(s: string, pat: string, j: int) {
    0 <= j && j + |pat| <= |s| && s[j..j + |pat|] == pat
  }

  /** `s.find(pat)`: the lowest index at which pat occurs in s, or -1. */
  function Find(s: string, pat: string): (r: int)
    ensures -1 <= r
    ensures r >= 0 ==> OccursAt(s, pat, r)
    ensures forall j :: 0 <= j && (r < 0 || j < r) ==> !OccursAt(s, pat, j)
  {
    if |s| < |pat| then -1
    else if s[..|pat|] == pat then 0
    else
      var k := Find(s[1..], pat);
      assert forall j :: 1 <= j ==> (OccursAt(s, pat, j) <==> OccursAt(s[1..], pat, j - 1));
      if k < 0 then -1 else k + 1
  }

  /** `s.startswith('-')`. */
  predicate StartsWithDash(s: string) {
    |s| > 0 && s[0] == '-'
  }

  function Max(a: int, b: int): int {
    if a < b then b else a
  }

  /** n spaces, or none when n is not positive. */
  function Spaces(n: int): string {
    seq(Max(n, 0), _ => ' ')
  }

  /** `f'{s:>w}'`: s padded on the left with spaces to width w, never truncated. */
  function RightAlign(s: string, w: nat): (r: string)
    ensures |r| == Max(w, |s|)
    ensures r[|r| - |s|..] == s
    ensures forall i :: 0 <= i < |r| - |s| ==> r[i] == ' '
  {
    if |s| >= w then s else seq(w - |s|, _ => ' ') + s
  }

  /** Right alignment is padding with w - |s| spaces, or none. */
  lemma RightAlignPads(s: string, w: nat)
    ensures RightAlign(s, w) == Spaces(w - |s|) + s
  {
    var r := RightAlign(s, w);
    assert r == r[..|r| - |s|] + r[|r| - |s|..];
    assert r[..|r| - |s|] == Spaces(w - |s|);
  }
}
