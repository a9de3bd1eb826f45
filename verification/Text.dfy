/** The few string operations of Python's `str` that several components rely on. */
module Text {

  /** The characters `str.strip` removes and `\s` matches. */
  predicate IsSpace(c: char) {
    var n := c as int;
    || 0x09 <= n <= 0x0d || 0x1c <= n <= 0x20 || n == 0x85 || n == 0xa0 || n == 0x1680
    || 0x2000 <= n <= 0x200a || n == 0x2028 || n == 0x2029 || n == 0x202f || n == 0x205f || n == 0x3000
  }

  function StripLeft(s: string): (r: string) {
    if s != [] && IsSpace(s[0]) then StripLeft(s[1..]) else s
  }

  function StripRight(s: string): (r: string) {
    if s != [] && IsSpace(s[|s| - 1]) then StripRight(s[..|s| - 1]) else s
  }

  function Strip(s: string): (r: string) {
    StripRight(StripLeft(s))
  }

  predicate AllSpace(s: string) {
    forall i :: 0 <= i < |s| ==> IsSpace(s[i])
  }

  predicate Bare(s: string) {
    s != "" ==> !IsSpace(s[0]) && !IsSpace(s[|s| - 1])
  }

  lemma {:induction false} StripRightIs(s: string)
    ensures var r := StripRight(s);
            r <= s && AllSpace(s[|r|..]) && (r != "" ==> !IsSpace(r[|r| - 1]))
  {
    if s != "" && IsSpace(s[|s| - 1]) {
      var front := s[..|s| - 1];
      StripRightIs(front);
      var r := StripRight(front);
      assert s[|r|..] == front[|r|..] + [s[|s| - 1]];
    }
  }

  lemma {:induction false} StripLeftIs(s: string)
    ensures var r := StripLeft(s);
            |r| <= |s| && r == s[|s| - |r|..] && AllSpace(s[..|s| - |r|]) && (r != "" ==> !IsSpace(r[0]))
  {
    if s != "" && IsSpace(s[0]) {
      StripLeftIs(s[1..]);
      var k := |s| - |StripLeft(s)|;
      assert s[..k] == [s[0]] + s[1..][..k - 1];
    }
  }

  ghost predicate Within(s: string, r: string) {
    exists a, b :: AllSpace(a) && AllSpace(b) && s == a + r + b
  }

  lemma BetweenSpace(s: string, i: nat, j: nat)
    requires i <= j <= |s| && AllSpace(s[..i]) && AllSpace(s[j..])
    ensures Within(s, s[i..j])
  {
    assert s == s[..i] + s[i..j] + s[j..];
  }

  lemma Slices(s: string, i: nat, r: string)
    requires i <= |s| && r <= s[i..]
    ensures i + |r| <= |s| && r == s[i..i + |r|] && s[i..][|r|..] == s[i + |r|..]
  {
  }

  /** Stripping takes away white space at both ends, all of it, and nothing else. */
  lemma StripIs(s: string)
    ensures Within(s, Strip(s)) && Bare(Strip(s))
  {
    StripLeftIs(s);
    var t := StripLeft(s);
    StripRightIs(t);
    var i, r := |s| - |t|, StripRight(t);
    Slices(s, i, r);
    BetweenSpace(s, i, i + |r|);
    assert r != "" ==> r[0] == t[0];
  }
}
