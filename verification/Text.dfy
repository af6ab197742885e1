/** Substring search as QString offers it: `find` returns the leftmost
    position, `contains` tells whether there is one.  The empty string is
    found at position 0 of every string. */
module Text {

  predicate MatchAt(s: string, i: nat, t: string) {
    i + |t| <= |s| && s[i..i + |t|] == t
  }

  function FindFrom(s: string, t: string, i: nat): (r: int)
    requires i <= |s| + 1
    ensures r == -1 || i <= r <= |s| - |t|
    decreases |s| + 1 - i
  {
    if i > |s| then -1
    else if MatchAt(s, i, t) then i
    else FindFrom(s, t, i + 1)
  }

  function Find(s: string, t: string): (r: int)
    ensures r == -1 || 0 <= r <= |s| - |t|
  {
    FindFrom(s, t, 0)
  }

  predicate Contains(s: string, t: string) {
    Find(s, t) >= 0
  }

  /** What is left of `s` behind the leftmost `t`. */
  function After(s: string, t: string): (r: string)
    requires Contains(s, t)
    ensures |r| + |t| <= |s|
  {
    s[Find(s, t) + |t|..]
  }

  lemma {:induction false} FindFromLeftmost(s: string, t: string, i: nat)
    requires i <= |s| + 1
    ensures FindFrom(s, t, i) >= 0 ==> MatchAt(s, FindFrom(s, t, i), t)
    ensures forall j: nat | i <= j && (FindFrom(s, t, i) == -1 || j < FindFrom(s, t, i)) :: !MatchAt(s, j, t)
    decreases |s| + 1 - i
  {
    if i <= |s| && !MatchAt(s, i, t) {
      FindFromLeftmost(s, t, i + 1);
    }
  }

  /** `Find` is the leftmost occurrence, and -1 only if there is none. */
  lemma FindLeftmost(s: string, t: string)
    ensures Find(s, t) >= 0 ==> MatchAt(s, Find(s, t), t)
    ensures forall j: nat | Find(s, t) == -1 || j < Find(s, t) :: !MatchAt(s, j, t)
  {
    FindFromLeftmost(s, t, 0);
  }

  lemma NotInShorter(s: string, t: string)
    requires |s| < |t|
    ensures !Contains(s, t)
  {
    FindLeftmost(s, t);
  }

  lemma ContainsAt(s: string, t: string, i: nat)
    requires MatchAt(s, i, t)
    ensures Contains(s, t)
    ensures Find(s, t) <= i
  {
    FindLeftmost(s, t);
  }

  /** Text that arrives later never moves the leftmost occurrence. */
  lemma AfterExtend(s: string, t: string, more: string)
    requires Contains(s, t)
    ensures Contains(s + more, t)
    ensures After(s + more, t) == After(s, t) + more
  {
    FindLeftmost(s, t);
    FindLeftmost(s + more, t);
    var p := Find(s, t);
    var whole := s + more;
    assert whole[p..p + |t|] == s[p..p + |t|];
    ContainsAt(whole, t, p);
    var q := Find(whole, t);
    assert whole[q..q + |t|] == s[q..q + |t|];
    assert MatchAt(s, q, t);
    assert whole[p + |t|..] == s[p + |t|..] + more;
  }

  function LowerChar(c: char): char {
    if 'A' <= c <= 'Z' then (c as int + 32) as char else c
  }

  function Lower(s: string): string {
    if s == "" then "" else [LowerChar(s[0])] + Lower(s[1..])
  }

  predicate IsSpace(c: char) {
    c == ' ' || c == '\t' || c == '\n' || c == '\r'
  }
}
