/** The login script as the account editor keeps it (kppp/edit.cpp): the two
    list boxes, the edit buttons, and the balance check that guards saving.

    Balance is stated by a grammar; the check counts.  The stack of open loops
    is what the interpreter in module LoginMachine has to reproduce. */
module Script {

  const MAX_SCRIPT_ENTRIES: nat := 20
  const MAXLOOPNEST: nat := MAX_SCRIPT_ENTRIES / 2

  datatype Command =
    | Expect | Send | SendNoEcho | Pause | Timeout | Hangup | Answer
    | ID | Password | Prompt | PWPrompt | LoopStart | LoopEnd | Scan | Save
    | Unknown(name: string)

  // ----- the grammar of balanced scripts

  datatype Forest =
    | Done
    | Plain(command: Command, rest: Forest)
    | Loop(body: Forest, rest: Forest)

  ghost predicate WellFormed(f: Forest) {
    match f
    case Done => true
    case Plain(c, rest) => !c.LoopStart? && !c.LoopEnd? && WellFormed(rest)
    case Loop(body, rest) => WellFormed(body) && WellFormed(rest)
  }

  ghost function Yield(f: Forest): seq<Command> {
    match f
    case Done => []
    case Plain(c, rest) => [c] + Yield(rest)
    case Loop(body, rest) => [LoopStart] + Yield(body) + [LoopEnd] + Yield(rest)
  }

  ghost predicate Balanced(cs: seq<Command>) {
    exists f :: WellFormed(f) && Yield(f) == cs
  }

  // ----- nesting depth

  function Delta(c: Command): int {
    if c.LoopStart? then 1 else if c.LoopEnd? then -1 else 0
  }

  /** Loops opened minus loops closed in the first `i` entries. */
  ghost function Depth(cs: seq<Command>, i: nat): int
    requires i <= |cs|
  {
    if i == 0 then 0 else Depth(cs, i - 1) + Delta(cs[i - 1])
  }

  ghost predicate NonNegativeUpTo(cs: seq<Command>, n: nat)
    requires n <= |cs|
  {
    forall i: nat | i <= n :: Depth(cs, i) >= 0
  }

  ghost predicate NeverNegative(cs: seq<Command>) {
    NonNegativeUpTo(cs, |cs|)
  }

  ghost predicate Counted(cs: seq<Command>) {
    NeverNegative(cs) && Depth(cs, |cs|) == 0
  }

  lemma {:induction false} DepthAppend(a: seq<Command>, b: seq<Command>, i: nat)
    requires i <= |b|
    ensures Depth(a + b, |a| + i) == Depth(a, |a|) + Depth(b, i)
  {
    if i == 0 {
      DepthPrefix(a, b, |a|);
    } else {
      DepthAppend(a, b, i - 1);
      assert (a + b)[|a| + i - 1] == b[i - 1];
    }
  }

  lemma {:induction false} DepthPrefix(a: seq<Command>, b: seq<Command>, i: nat)
    requires i <= |a|
    ensures Depth(a + b, i) == Depth(a, i)
  {
    if i > 0 {
      DepthPrefix(a, b, i - 1);
      assert (a + b)[i - 1] == a[i - 1];
    }
  }

  lemma {:induction false} DepthSlice(cs: seq<Command>, lo: nat, hi: nat, i: nat)
    requires lo <= hi <= |cs| && i <= hi - lo
    ensures Depth(cs[lo..hi], i) == Depth(cs, lo + i) - Depth(cs, lo)
  {
    if i > 0 {
      DepthSlice(cs, lo, hi, i - 1);
      assert cs[lo..hi][i - 1] == cs[lo + i - 1];
    }
  }

  lemma CountedConcat(a: seq<Command>, b: seq<Command>)
    requires Counted(a) && Counted(b)
    ensures Counted(a + b)
  {
    forall i: nat | i <= |a + b| ensures Depth(a + b, i) >= 0 {
      if i <= |a| {
        DepthPrefix(a, b, i);
      } else {
        DepthAppend(a, b, i - |a|);
      }
    }
    DepthAppend(a, b, |b|);
  }

  lemma CountedLoop(body: seq<Command>)
    requires Counted(body)
    ensures Counted([LoopStart] + body + [LoopEnd])
  {
    var open, all := [LoopStart] + body, [LoopStart] + body + [LoopEnd];
    assert Depth([LoopStart], 1) == 1 by { assert Depth([LoopStart], 0) == 0; }
    forall i: nat | i <= |body| ensures Depth(open, 1 + i) == 1 + Depth(body, i) {
      DepthAppend([LoopStart], body, i);
    }
    forall i: nat | i <= |open| ensures Depth(all, i) == Depth(open, i) >= 0 {
      DepthPrefix(open, [LoopEnd], i);
      if i > 0 {
        assert Depth(open, 1 + (i - 1)) == 1 + Depth(body, i - 1);
      }
    }
    assert all[|open|] == LoopEnd;
  }

  lemma {:induction false} YieldIsCounted(f: Forest)
    requires WellFormed(f)
    ensures Counted(Yield(f))
  {
    match f
    case Done =>
    case Plain(c, rest) =>
      YieldIsCounted(rest);
      assert Counted([c]) by { assert Depth([c], 0) == 0; assert Depth([c], 1) == 0; }
      CountedConcat([c], Yield(rest));
    case Loop(body, rest) =>
      YieldIsCounted(body);
      YieldIsCounted(rest);
      CountedLoop(Yield(body));
      CountedConcat([LoopStart] + Yield(body) + [LoopEnd], Yield(rest));
  }

  lemma StepDepth(cs: seq<Command>, i: nat)
    requires i < |cs|
    ensures Depth(cs, i + 1) == Depth(cs, i) + Delta(cs[i])
  {
  }

  lemma SliceLoop(cs: seq<Command>, lo: nat, end: nat, hi: nat)
    requires lo < end < hi <= |cs|
    ensures cs[lo..hi] == [cs[lo]] + cs[lo + 1..end] + [cs[end]] + cs[end + 1..hi]
  {
  }

  /** Parse from `lo` up to the first loop end that is not opened behind `lo`. */
  lemma {:induction false} ParseFrom(cs: seq<Command>, lo: nat) returns (f: Forest, hi: nat)
    requires lo <= |cs| && Counted(cs)
    ensures lo <= hi <= |cs| && WellFormed(f) && Yield(f) == cs[lo..hi]
    ensures Depth(cs, hi) == Depth(cs, lo)
    ensures hi < |cs| ==> cs[hi] == LoopEnd
    decreases |cs| - lo, 1
  {
    if lo == |cs| || cs[lo] == LoopEnd {
      f, hi := Done, lo;
    } else if cs[lo] == LoopStart {
      f, hi := ParseLoop(cs, lo);
    } else {
      var rest, stop := ParseFrom(cs, lo + 1);
      StepDepth(cs, lo);
      f, hi := Plain(cs[lo], rest), stop;
      assert cs[lo..hi] == [cs[lo]] + cs[lo + 1..hi];
    }
  }

  lemma {:induction false} ParseLoop(cs: seq<Command>, lo: nat) returns (f: Forest, hi: nat)
    requires lo < |cs| && Counted(cs) && cs[lo] == LoopStart
    ensures lo <= hi <= |cs| && WellFormed(f) && Yield(f) == cs[lo..hi]
    ensures Depth(cs, hi) == Depth(cs, lo)
    ensures hi < |cs| ==> cs[hi] == LoopEnd
    decreases |cs| - lo, 0
  {
    var body, end := ParseFrom(cs, lo + 1);
    StepDepth(cs, lo);
    assert Depth(cs, lo) >= 0;
    StepDepth(cs, end);
    var rest, stop := ParseFrom(cs, end + 1);
    f, hi := Loop(body, rest), stop;
    SliceLoop(cs, lo, end, hi);
  }

  /** Counting accepts exactly the scripts the grammar derives. */
  lemma CountedIffBalanced(cs: seq<Command>)
    ensures Counted(cs) <==> Balanced(cs)
  {
    if Counted(cs) {
      var f, hi := ParseFrom(cs, 0);
      if hi < |cs| {
        StepDepth(cs, hi);
        assert false;
      }
      assert cs[0..hi] == cs;
    }
    if Balanced(cs) {
      var f :| WellFormed(f) && Yield(f) == cs;
      YieldIsCounted(f);
    }
  }

  // ----- the stack of open loops

  /** Indices of the LoopStart entries still open in front of entry `i`,
      outermost first. */
  ghost function Open(cs: seq<Command>, i: nat): (r: seq<nat>)
    requires i <= |cs|
    ensures forall k | 0 <= k < |r| :: r[k] < i && cs[r[k]] == LoopStart
    ensures |r| <= i
  {
    if i == 0 then []
    else
      var before := Open(cs, i - 1);
      if cs[i - 1].LoopStart? then before + [i - 1]
      else if cs[i - 1].LoopEnd? && before != [] then before[..|before| - 1]
      else before
  }

  lemma {:induction false} OpenDepth(cs: seq<Command>, i: nat)
    requires NeverNegative(cs) && i <= |cs|
    ensures |Open(cs, i)| == Depth(cs, i)
  {
    if i > 0 {
      OpenDepth(cs, i - 1);
      assert Depth(cs, i) >= 0;
    }
  }

  /** The loops around an open LoopStart are the ones below it on the stack. */
  lemma {:induction false} OpenBelow(cs: seq<Command>, i: nat, k: nat)
    requires i <= |cs| && k < |Open(cs, i)|
    ensures Open(cs, Open(cs, i)[k]) == Open(cs, i)[..k]
  {
    var before := Open(cs, i - 1);
    if k < |before| {
      OpenBelow(cs, i - 1, k);
      assert Open(cs, i)[..k] == before[..k];
    } else {
      assert Open(cs, i)[..k] == before;
    }
  }

  /** Between an open LoopStart and `i` the script stays inside that loop. */
  lemma {:induction false} OpenSpan(cs: seq<Command>, i: nat, k: nat, j: nat)
    requires i <= |cs| && k < |Open(cs, i)|
    requires Open(cs, i)[k] < j <= i
    ensures k < |Open(cs, j)| && Open(cs, j)[k] == Open(cs, i)[k]
    decreases i - j
  {
    if j < i {
      OpenSpan(cs, i, k, j + 1);
    }
  }

  ghost predicate Matches(cs: seq<Command>, m: nat, j: nat) {
    m < j < |cs| && cs[m] == LoopStart && cs[j] == LoopEnd && Balanced(cs[m + 1..j])
  }

  lemma MatchTop(cs: seq<Command>, j: nat, m: nat)
    requires Counted(cs) && j < |cs| && cs[j] == LoopEnd
    requires Open(cs, j) != [] && m == Open(cs, j)[|Open(cs, j)| - 1]
    ensures Matches(cs, m, j)
  {
    var top := |Open(cs, j)| - 1;
    var inside := cs[m + 1..j];
    forall i: nat | i <= |inside| ensures Depth(inside, i) >= 0 {
      InsideDepth(cs, j, top, i);
    }
    InsideDepth(cs, j, top, |inside|);
    OpenDepth(cs, j);
    CountedIffBalanced(inside);
  }

  lemma InsideDepth(cs: seq<Command>, j: nat, k: nat, i: nat)
    requires NeverNegative(cs) && j <= |cs| && k < |Open(cs, j)| && Open(cs, j)[k] + 1 + i <= j
    ensures var m := Open(cs, j)[k];
            var depth := Depth(cs[m + 1..j], i);
            depth == Depth(cs, m + 1 + i) - (k + 1) && depth >= 0
  {
    var m := Open(cs, j)[k];
    OpenBelow(cs, j, k);
    OpenDepth(cs, m);
    StepDepth(cs, m);
    DepthSlice(cs, m + 1, j, i);
    OpenSpan(cs, j, k, m + 1 + i);
    OpenDepth(cs, m + 1 + i);
  }

  lemma EndHasMatch(cs: seq<Command>, j: nat)
    requires Balanced(cs) && j < |cs| && cs[j] == LoopEnd
    ensures Open(cs, j) != []
    ensures Matches(cs, Open(cs, j)[|Open(cs, j)| - 1], j)
  {
    CountedIffBalanced(cs);
    OpenDepth(cs, j);
    StepDepth(cs, j);
    assert |Open(cs, j)| > 0 by { assert Depth(cs, j + 1) >= 0; }
    MatchTop(cs, j, Open(cs, j)[|Open(cs, j)| - 1]);
  }

  /** In a balanced script every LoopEnd matches exactly one LoopStart: the
      innermost loop open in front of it. */
  lemma MatchUnique(cs: seq<Command>, j: nat)
    requires Balanced(cs) && j < |cs| && cs[j] == LoopEnd
    ensures Open(cs, j) != []
    ensures forall m: nat :: Matches(cs, m, j) <==> m == Open(cs, j)[|Open(cs, j)| - 1]
    ensures Depth(cs, Open(cs, j)[|Open(cs, j)| - 1]) == Depth(cs, j + 1)
  {
    CountedIffBalanced(cs);
    EndHasMatch(cs, j);
    OpenDepth(cs, j);
    StepDepth(cs, j);
    var top := |Open(cs, j)| - 1;
    var m := Open(cs, j)[top];
    OpenBelow(cs, j, top);
    OpenDepth(cs, m);
    forall n: nat | Matches(cs, n, j) ensures n == m {
      OnlyOneMatch(cs, m, n, j);
      OnlyOneMatch(cs, n, m, j);
    }
  }

  /** Behind its matching LoopStart a LoopEnd finds the same loops open. */
  lemma MatchSameStack(cs: seq<Command>, j: nat) returns (m: nat)
    requires Balanced(cs) && j < |cs| && cs[j] == LoopEnd
    ensures Open(cs, j) != [] && m == Open(cs, j)[|Open(cs, j)| - 1]
    ensures Matches(cs, m, j) && Open(cs, m + 1) == Open(cs, j)
  {
    EndHasMatch(cs, j);
    var top := |Open(cs, j)| - 1;
    m := Open(cs, j)[top];
    OpenBelow(cs, j, top);
    assert Open(cs, m + 1) == Open(cs, m) + [m];
  }

  lemma OnlyOneMatch(cs: seq<Command>, m: nat, n: nat, j: nat)
    requires Matches(cs, m, j) && Matches(cs, n, j)
    ensures !(m < n)
  {
    if m < n {
      CountedIffBalanced(cs[m + 1..j]);
      CountedIffBalanced(cs[n + 1..j]);
      DepthSlice(cs, m + 1, j, j - m - 1);
      DepthSlice(cs, n + 1, j, j - n - 1);
      DepthSlice(cs, m + 1, j, n - m - 1);
      assert Depth(cs, n + 1) == Depth(cs, n) + 1;
      StepDepth(cs[m + 1..j], n - m - 1);
      assert false;
    }
  }

  /** Every open loop still needs its end, so depth never exceeds half the
      length. */
  lemma DepthAtMostHalf(cs: seq<Command>, i: nat)
    requires Balanced(cs) && i <= |cs|
    ensures 2 * |Open(cs, i)| <= |cs|
  {
    CountedIffBalanced(cs);
    OpenDepth(cs, i);
    DepthClimb(cs, 0, i);
    DepthClimb(cs, i, |cs|);
  }

  lemma {:induction false} DepthClimb(cs: seq<Command>, i: nat, j: nat)
    requires i <= j <= |cs|
    ensures -(j - i) <= Depth(cs, j) - Depth(cs, i) <= j - i
  {
    if i < j {
      DepthClimb(cs, i, j - 1);
    }
  }

  // ----- the editor

  class ScriptWidget {
    var stl: seq<Command>
    var sl: seq<string>

    ghost predicate Valid()
      reads this
    {
      |stl| == |sl|
    }

    constructor (comlist: seq<Command>, arglist: seq<string>)
      ensures Valid()
      ensures var n := if |comlist| <= |arglist| then |comlist| else |arglist|;
              stl == comlist[..n] && sl == arglist[..n]
    {
      var i := 0;
      var types: seq<Command>, args: seq<string> := [], [];
      while i < |comlist| && i < |arglist|
        invariant 0 <= i <= |comlist| && i <= |arglist|
        invariant types == comlist[..i] && args == arglist[..i]
      {
        types, args := types + [comlist[i]], args + [arglist[i]];
        i := i + 1;
      }
      stl, sl := types, args;
    }

    /** The check run before a script is saved. */
    method Check() returns (ok: bool)
      requires Valid()
      ensures ok <==> Balanced(stl)
    {
      var lstart: nat, lend: nat, errcnt: nat := 0, 0, 0;
      if |sl| > 0 {
        var i := 0;
        while i <= |sl| - 1
          invariant 0 <= i <= |sl|
          invariant lstart - lend == Depth(stl, i)
          invariant errcnt == 0 <==> NonNegativeUpTo(stl, i)
        {
          if stl[i] == LoopStart {
            lstart := lstart + 1;
          }
          if stl[i] == LoopEnd {
            lend := lend + 1;
          }
          if lend > lstart {
            errcnt := errcnt + 1;
          }
          i := i + 1;
        }
        CountedIffBalanced(stl);
        return errcnt == 0 && lstart == lend;
      }
      CountedIffBalanced(stl);
      return true;
    }

    method AddButton(command: Command, text: string)
      requires Valid()
      modifies this
      ensures Valid()
      ensures if old(|sl|) == MAX_SCRIPT_ENTRIES - 1 || command.Unknown?
              then stl == old(stl) && sl == old(sl)
              else stl == old(stl) + [command]
                   && sl == old(sl) + [if command == Hangup || command == Answer then "" else text]
    {
      if |sl| == MAX_SCRIPT_ENTRIES - 1 {
        return;
      }
      if !command.Unknown? {
        stl := stl + [command];
        sl := sl + [Argument(command, text)];
      }
    }

    method InsertButton(current: int, command: Command, text: string)
      requires Valid() && -1 <= current < |sl|
      modifies this
      ensures Valid()
      ensures if current < 0 || old(|sl|) == MAX_SCRIPT_ENTRIES - 1 || command.Unknown?
              then stl == old(stl) && sl == old(sl)
              else (&& stl == old(stl[..current] + [command] + stl[current..])
                    && sl == old(sl[..current] + [if command == Hangup || command == Answer then "" else text]
                                 + sl[current..]))
    {
      if current < 0 || |sl| == MAX_SCRIPT_ENTRIES - 1 {
        return;
      }
      if !command.Unknown? {
        stl := stl[..current] + [command] + stl[current..];
        sl := sl[..current] + [Argument(command, text)] + sl[current..];
      }
    }

    method RemoveButton(current: int)
      requires Valid() && -1 <= current < |sl|
      modifies this
      ensures Valid()
      ensures if current < 0 then stl == old(stl) && sl == old(sl)
              else (&& stl == old(stl[..current] + stl[current + 1..])
                    && sl == old(sl[..current] + sl[current + 1..]))
    {
      if current >= 0 {
        sl := sl[..current] + sl[current + 1..];
        stl := stl[..current] + stl[current + 1..];
      }
    }
  }

  /** Hangup and Answer take no text from the entry box. */
  function Argument(command: Command, text: string): string {
    if command.Hangup? || command.Answer? then "" else text
  }

  datatype Edit =
    | Add(command: Command, text: string)
    | Insert(at: int, command: Command, text: string)
    | Remove(at: int)

  /** Inserting an entry and removing it again leaves both lists as they were. */
  method InsertAndRemove(w: ScriptWidget, at: int, command: Command, text: string)
    requires w.Valid() && 0 <= at < |w.sl| < MAX_SCRIPT_ENTRIES - 1 && !command.Unknown?
    modifies w
    ensures w.Valid() && w.stl == old(w.stl) && w.sl == old(w.sl)
  {
    w.InsertButton(at, command, text);
    w.RemoveButton(at);
    assert old(w.stl) == old(w.stl[..at] + w.stl[at..]) && old(w.sl) == old(w.sl[..at] + w.sl[at..]);
  }

  /** Any session with the edit buttons keeps the two lists in step and under
      the entry limit that the interpreter's loop arrays are sized for. */
  method EditSession(w: ScriptWidget, edits: seq<Edit>)
    requires w.Valid() && |w.sl| <= MAX_SCRIPT_ENTRIES - 1
    modifies w
    ensures w.Valid() && |w.stl| <= MAX_SCRIPT_ENTRIES - 1
  {
    for n := 0 to |edits|
      invariant w.Valid() && |w.stl| <= MAX_SCRIPT_ENTRIES - 1
    {
      match edits[n]
      case Add(c, t) => w.AddButton(c, t);
      case Insert(at, c, t) => if -1 <= at < |w.sl| { w.InsertButton(at, c, t); }
      case Remove(at) => if -1 <= at < |w.sl| { w.RemoveButton(at); }
    }
  }
}
