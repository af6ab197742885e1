/** Where the guarantees of module LoginSafety end: the exact condition under
    which a waiting command keeps its place, and scripts accepted by the check
    that fail without the stated conditions. */
module LoginLimits {
  import opened Text
  import opened Script
  import opened LoginMachine
  import opened LoginSafety

  // ----- a waiting command keeps its place iff its string is not buffered yet

  /** Nothing in the machine ever adds to the buffer except an arriving
      character. */
  lemma {:induction false} CheckBuffersShrinks(cfg: Config, st: State)
    requires ValidConfig(cfg) && Valid(st)
    ensures |CheckBuffers(cfg, st).readbuffer| <= |st.readbuffer|
    decreases |st.readbuffer|, Bit(st.loops.end), Rem(cfg, st), if st.expectstr == "" then 2 else 0, 0
  {
    var s0 := st.(scan := FinishScan(st.scan));
    if s0.expecting {
      var s1 := LoopBack(TakeExpected(s0));
      if !s1.expecting && s1.live {
        TimerEventShrinks(cfg, s1);
      }
    }
  }

  lemma {:induction false} TimerEventShrinks(cfg: Config, st: State)
    requires ValidConfig(cfg) && Valid(st)
    ensures |TimerEvent(cfg, st).readbuffer| <= |st.readbuffer|
    decreases |st.readbuffer|, Bit(st.loops.end), Rem(cfg, st), 1, 2
  {
    if st.semaphore || st.pausing || st.expecting {
    } else if st.phase == Answering {
      CheckBuffersShrinks(cfg, WriteLine(st, cfg.answerStr).(expecting := true, expectstr := cfg.answerResp));
    } else if st.phase == Scripting && !st.scan.on && st.scriptindex < |cfg.comlist| {
      assert TimerEvent(cfg, st) == RunCommand(cfg, st);
      if Waits(cfg, st) {
        var p, n := Prepare(cfg, st), Awaited(cfg, st);
        CheckBuffersShrinks(cfg, p.(expecting := true, expectstr := n));
        assert RunCommand(cfg, st) == Complete(cfg, st, SetExpect(cfg, p, n));
      } else {
        assert RunCommand(cfg, st) == Simple(cfg, st);
      }
    }
  }

  /** From a command at `j` the script never goes back while no loop end is
      pending, and it waits at `j` itself only for the modem's ring. */
  lemma {:induction false} TimerEventAdvances(cfg: Config, st: State)
    requires ValidConfig(cfg) && Valid(st) && !st.expecting && !st.loops.end && st.phase == Scripting
    ensures var r := TimerEvent(cfg, st);
            && r.scriptindex >= st.scriptindex
            && (r.expecting && r.scriptindex == st.scriptindex ==> r.expectstr == cfg.ringResp)
    decreases |st.readbuffer|, Bit(st.loops.end), Rem(cfg, st), 1, 2
  {
    if !st.semaphore && !st.pausing && !st.scan.on && st.scriptindex < |cfg.comlist| {
      assert TimerEvent(cfg, st) == RunCommand(cfg, st);
      if Waits(cfg, st) {
        WaitingAdvances(cfg, st);
      }
    }
  }

  lemma {:induction false} WaitingAdvances(cfg: Config, st: State)
    requires ValidConfig(cfg) && Valid(st) && !st.expecting && !st.loops.end && st.phase == Scripting
    requires st.scriptindex < |cfg.comlist| && Waits(cfg, st)
    ensures var r := RunCommand(cfg, st);
            && r.scriptindex >= st.scriptindex
            && (r.expecting && r.scriptindex == st.scriptindex ==> r.expectstr == cfg.ringResp)
    decreases |st.readbuffer|, Bit(st.loops.end), Rem(cfg, st), 1, 0
  {
    var p, n := Prepare(cfg, st), Awaited(cfg, st);
    var waiting := p.(expecting := true, expectstr := n, scan := FinishScan(p.scan));
    var s := TakeExpected(waiting);
    assert SetExpect(cfg, p, n) == if s.expecting || !s.live then s else TimerEvent(cfg, s);
    if !s.expecting && s.live {
      TimerEventAdvances(cfg, s);
    }
  }

  /** The command has begun to wait and nothing else has happened. */
  ghost predicate KeepsPlace(cfg: Config, st: State, r: State)
    requires ValidConfig(cfg) && st.scriptindex < |cfg.comlist|
  {
    && r.expecting && r.expectstr == Awaited(cfg, st) && r.readbuffer == st.readbuffer
    && r.scriptindex == st.scriptindex + if cfg.comlist[st.scriptindex] == Answer then 0 else 1
  }

  lemma MatchedLosesPlace(cfg: Config, st: State)
    requires ValidConfig(cfg) && Valid(st) && !st.loops.end && st.phase == Scripting && st.live
    requires !st.expecting && st.scriptindex < |cfg.comlist| && Waits(cfg, st)
    requires cfg.comlist[st.scriptindex] in {LoopStart, LoopEnd, Hangup, Answer}
    requires Contains(st.readbuffer, Awaited(cfg, st))
    ensures !KeepsPlace(cfg, st, RunCommand(cfg, st))
  {
    var p, n := Prepare(cfg, st), Awaited(cfg, st);
    var waiting := p.(expecting := true, expectstr := n, scan := FinishScan(p.scan));
    var s := TakeExpected(waiting);
    assert SetExpect(cfg, p, n) == TimerEvent(cfg, s);
    TimerEventShrinks(cfg, s);
    if n == "" {
      TimerEventAdvances(cfg, s);
    }
  }

  /** At LoopStart, LoopEnd, Hangup and Answer the script keeps its place
      exactly when the awaited string is not in the buffer already. */
  lemma KeepsPlaceIff(cfg: Config, base: nat, st: State)
    requires GoodScript(cfg, base) && Inv(cfg, base, st)
    requires st.phase == Scripting && st.live && !st.expecting && !st.semaphore && !st.pausing && !st.scan.on
    requires st.scriptindex < |cfg.comlist|
    requires cfg.comlist[st.scriptindex] in {LoopStart, LoopEnd, Hangup, Answer}
    ensures KeepsPlace(cfg, st, TimerEvent(cfg, st)) <==> !Contains(st.readbuffer, Awaited(cfg, st))
  {
    var p, n := Prepare(cfg, st), Awaited(cfg, st);
    WaitsWhenSound(cfg, base, st);
    if Contains(st.readbuffer, n) {
      MatchedLosesPlace(cfg, st);
    } else {
      NotImmediate(cfg, p, n);
    }
  }

  lemma WaitsWhenSound(cfg: Config, base: nat, st: State)
    requires GoodScript(cfg, base) && Inv(cfg, base, st) && st.scriptindex < |cfg.comlist|
    requires cfg.comlist[st.scriptindex] in {LoopStart, LoopEnd, Hangup, Answer}
    ensures Waits(cfg, st)
  {
    OpenStep(cfg.comlist, st.scriptindex);
    FitsAt(cfg.comlist, base, st.scriptindex + 1);
  }

  // ----- sessions from their start

  function ScriptOf(cs: seq<Command>, args: seq<string>): Config {
    Config(cs, args, "ATH", "OK", "RING", "ATA", "CONNECT", "")
  }

  /** A widget between two sessions, with `base` loops never left and no
      character unread.  A new widget has `base` 0. */
  ghost predicate Between(base: int, st: State) {
    && Valid(st) && st.loops.nest == base && !st.loops.end && st.readbuffer == ""
    && st.past == History(NoFault, false, false)
  }

  /** Script mode, not waiting, at entry `k` with `nest` loops entered. */
  ghost predicate Ready(k: nat, nest: int, buffer: string, st: State) {
    && Valid(st) && st.phase == Scripting && st.live && !st.semaphore && !st.pausing && !st.scan.on
    && st.scriptindex == k && st.loops.nest == nest && !st.loops.end
    && !st.expecting && st.readbuffer == buffer
    && st.past == History(NoFault, false, false)
  }

  lemma RunFirst(cfg: Config, st: State, e: Event, rest: seq<Event>)
    requires ValidConfig(cfg) && Valid(st)
    ensures Run(cfg, st, [e] + rest) == Run(cfg, Step(cfg, st, e), rest)
  {
    assert ([e] + rest)[1..] == rest;
  }

  lemma {:induction false} RunAppend(cfg: Config, st: State, a: seq<Event>, b: seq<Event>)
    requires ValidConfig(cfg) && Valid(st)
    ensures Run(cfg, st, a + b) == Run(cfg, Run(cfg, st, a), b)
    decreases |a|
  {
    if a == [] {
      assert a + b == b;
    } else {
      RunAppend(cfg, Step(cfg, st, a[0]), a[1..], b);
      assert (a + b)[1..] == a[1..] + b;
    }
  }

  lemma ScriptBegins(cfg: Config, st: State, rest: seq<Event>)
    requires ValidConfig(cfg) && Between(st.loops.nest, st)
    ensures var s := Step(cfg, Init(st, true), DialDone);
            Ready(0, st.loops.nest, "", s) && Run(cfg, Init(st, true), [DialDone] + rest) == Run(cfg, s, rest)
  {
    RunFirst(cfg, Init(st, true), DialDone, rest);
  }

  // ----- a string that is buffered already at LoopStart

  /** The LoopEnd runs before its LoopStart has pushed the loop: a script the
      check accepts ends in "LoopEnd without matching Start" in the first session
      of a new widget, when the loop's string comes in before the first tick. */
  lemma BufferedAtLoopStart(st: State)
    requires Between(0, st)
    ensures var cfg := ScriptOf([LoopStart, LoopEnd], ["a", "b"]);
            && Balanced(cfg.comlist)
            && Run(cfg, Init(st, true), [DialDone, Char('a'), Tick]).past.fault == NoStart
  {
    var cfg := ScriptOf([LoopStart, LoopEnd], ["a", "b"]);
    assert Yield(Loop(Done, Done)) == cfg.comlist && WellFormed(Loop(Done, Done));
    ScriptBegins(cfg, st, [Char('a')] + [Tick]);
    assert [DialDone] + ([Char('a')] + [Tick]) == [DialDone, Char('a'), Tick];
    var s := Step(cfg, Init(st, true), DialDone);
    assert s.readbuffer + ['a'] == "a";
    RunFirst(cfg, s, Char('a'), [Tick]);
    RunFirst(cfg, Receive(s, 'a'), Tick, []);
    assert [Tick] + [] == [Tick];
    LoopStartFindsNoLoop(cfg, Receive(s, 'a'));
  }

  lemma LoopStartFindsNoLoop(cfg: Config, st: State)
    requires cfg == ScriptOf([LoopStart, LoopEnd], ["a", "b"]) && Ready(0, 0, "a", st)
    ensures TimerEvent(cfg, st).past.fault == NoStart
  {
    assert "a" == "a" + "";
    var s := TakenAtOnce(cfg, st, "a", "");
    assert TimerEvent(cfg, s) == RunCommand(cfg, s) == Simple(cfg, s);
  }

  // ----- strings that are buffered already at LoopEnd

  function PausedScript(): Config {
    ScriptOf([LoopStart, Pause, LoopStart, LoopEnd, LoopEnd, Expect], ["x", "1", "y", "a", "b", "z"])
  }

  ghost function PausedForest(): Forest {
    Loop(Plain(Pause, Loop(Done, Done)), Plain(Expect, Done))
  }

  lemma TakenAtOnce(cfg: Config, st: State, t: string, rest: string) returns (s: State)
    requires ValidConfig(cfg) && st.scriptindex < |cfg.comlist| && Ready(st.scriptindex, st.loops.nest, t + rest, st)
    requires Waits(cfg, st) && cfg.comlist[st.scriptindex] in {LoopStart, LoopEnd, Expect}
    requires t != "" && cfg.arglist[st.scriptindex] == t
    ensures s == st.(scriptindex := st.scriptindex + 1, expectstr := t, readbuffer := rest)
    ensures TimerEvent(cfg, st) == Complete(cfg, st, TimerEvent(cfg, s))
  {
    assert (t + rest)[..|t|] == t;
    ContainsAt(t + rest, t, 0);
    assert After(t + rest, t) == rest;
    var waiting := Prepare(cfg, st).(expecting := true, expectstr := t);
    s := TakeExpected(waiting);
    assert FinishScan(waiting.scan) == waiting.scan;
    assert CheckBuffers(cfg, waiting) == TimerEvent(cfg, s);
    TickRuns(cfg, st);
  }

  lemma TickRuns(cfg: Config, st: State)
    requires ValidConfig(cfg) && st.scriptindex < |cfg.comlist| && Waits(cfg, st)
    requires Ready(st.scriptindex, st.loops.nest, st.readbuffer, st)
    ensures TimerEvent(cfg, st) == Complete(cfg, st, SetExpect(cfg, Prepare(cfg, st), Awaited(cfg, st)))
  {
    assert TimerEvent(cfg, st) == RunCommand(cfg, st);
  }

  /** A command that waits, with nothing in the buffer. */
  lemma TickWaits(cfg: Config, st: State)
    requires ValidConfig(cfg) && st.scriptindex < |cfg.comlist| && Waits(cfg, st)
    requires Ready(st.scriptindex, st.loops.nest, "", st) && Awaited(cfg, st) != ""
    ensures var w := Prepare(cfg, st).(expecting := true, expectstr := Awaited(cfg, st));
            TimerEvent(cfg, st) == Complete(cfg, st, w) && !Immediate(Prepare(cfg, st), Awaited(cfg, st))
  {
    NotInShorter("", Awaited(cfg, st));
    NotImmediate(cfg, Prepare(cfg, st), Awaited(cfg, st));
    TickRuns(cfg, st);
  }

  /** Every entry but the last finds its string at once: `loopnest` goes down
      twice before the inner LoopStart has pushed its loop, which then writes in
      front of the arrays. */
  lemma AnsweredAtOnce(st: State)
    requires Ready(2, 1, "yab", st)
    ensures TimerEvent(PausedScript(), st).past.fault == OutOfRange
  {
    var cfg := PausedScript();
    assert "yab" == "y" + "ab";
    var s := TakenAtOnce(cfg, st, "y", "ab");
    EndsAnswered(s);
  }

  lemma EndsAnswered(s: State)
    requires Ready(3, 1, "ab", s)
    ensures var r := TimerEvent(PausedScript(), s); r.loops.nest == -1 && r.past.fault == NoFault
  {
    var cfg := PausedScript();
    assert "ab" == "a" + "b" && "b" == "b" + "";
    var t := TakenAtOnce(cfg, s, "a", "b");
    var u := TakenAtOnce(cfg, t, "b", "");
    TickWaits(cfg, u);
    assert TimerEvent(cfg, u) == Prepare(cfg, u).(expecting := true, expectstr := "z");
    assert TimerEvent(cfg, t).loops.nest == 0;
  }

  lemma PauseReached(cfg: Config, st: State)
    requires cfg == PausedScript() && Ready(0, 0, "", st)
    ensures var s := Step(cfg, Step(cfg, st, Tick), Char('x')); s.pausing && Ready(2, 1, "", s.(pausing := false))
  {
    var w := Step(cfg, st, Tick);
    FirstWait(cfg, st);
    ArriveX(cfg, 0, 1, w);
    var s := w.(expecting := false, expectstr := "x");
    assert TimerEvent(cfg, s) == RunCommand(cfg, s) == Simple(cfg, s);
  }

  lemma FirstWait(cfg: Config, st: State)
    requires cfg == PausedScript() && Ready(0, 0, "", st)
    ensures AtLoop(0, 1, TimerEvent(cfg, st))
  {
    TickWaits(cfg, st);
  }

  lemma BufferedDuringPause(cfg: Config, st: State)
    requires ValidConfig(cfg) && st.pausing && Ready(2, 1, "", st.(pausing := false))
    ensures Run(cfg, st, [Char('y'), Char('a'), Char('b'), PauseEnd]) == st.(readbuffer := "yab", pausing := false)
  {
    var s1, s2 := st.(readbuffer := "y"), st.(readbuffer := "ya");
    var s3 := st.(readbuffer := "yab");
    assert "" + ['y'] == "y" && "y" + ['a'] == "ya" && "ya" + ['b'] == "yab";
    RunFirst(cfg, st, Char('y'), [Char('a'), Char('b'), PauseEnd]);
    RunFirst(cfg, s1, Char('a'), [Char('b'), PauseEnd]);
    RunFirst(cfg, s2, Char('b'), [PauseEnd]);
    RunFirst(cfg, s3, PauseEnd, []);
    assert [Char('y')] + [Char('a'), Char('b'), PauseEnd] == [Char('y'), Char('a'), Char('b'), PauseEnd];
    assert [Char('a')] + [Char('b'), PauseEnd] == [Char('a'), Char('b'), PauseEnd];
    assert [Char('b')] + [PauseEnd] == [Char('b'), PauseEnd] && [PauseEnd] + [] == [PauseEnd];
  }

  /** In the first session of a new widget, with a script the check accepts, the
      strings of two loop ends that come in during a pause lead to an access
      outside the loop arrays. */
  lemma BufferedAtLoopEnd(st: State)
    requires Between(0, st)
    ensures Balanced(PausedScript().comlist)
    ensures Run(PausedScript(), Init(st, true),
                [DialDone] + ([Tick, Char('x')] + ([Char('y'), Char('a'), Char('b'), PauseEnd] + [Tick]))).past.fault
            == OutOfRange
  {
    var cfg := PausedScript();
    assert WellFormed(PausedForest()) && Yield(PausedForest()) == cfg.comlist by {
      assert Yield(Loop(Done, Done)) == [LoopStart, LoopEnd];
      assert Yield(Plain(Pause, Loop(Done, Done))) == [Pause, LoopStart, LoopEnd];
    }
    var typed := [Char('y'), Char('a'), Char('b'), PauseEnd];
    ScriptBegins(cfg, st, [Tick, Char('x')] + (typed + [Tick]));
    var s := Step(cfg, Init(st, true), DialDone);
    PauseReached(cfg, s);
    RunAppend(cfg, s, [Tick, Char('x')], typed + [Tick]);
    RunTwo(cfg, s, Tick, Char('x'));
    var p := Step(cfg, Step(cfg, s, Tick), Char('x'));
    RunAppend(cfg, p, typed, [Tick]);
    BufferedDuringPause(cfg, p);
    AnsweredAtOnce(p.(readbuffer := "yab", pausing := false));
    RunFirst(cfg, p.(readbuffer := "yab", pausing := false), Tick, []);
    assert [Tick] + [] == [Tick];
  }

  lemma RunTwo(cfg: Config, st: State, e: Event, f: Event)
    requires ValidConfig(cfg) && Valid(st)
    ensures Run(cfg, st, [e, f]) == Step(cfg, Step(cfg, st, e), f)
  {
    RunFirst(cfg, st, e, [f]);
    RunFirst(cfg, Step(cfg, st, e), f, []);
    assert [e] + [f] == [e, f] && [f] + [] == [f];
  }

  // ----- loops left open by an earlier session

  function Nested(n: nat): seq<Command> {
    seq(n, _ => LoopStart) + seq(n, _ => LoopEnd)
  }

  function NestedScript(n: nat): Config {
    ScriptOf(Nested(n), seq(2 * n, _ => "x"))
  }

  function Answers(k: nat): seq<Event> {
    if k == 0 then [] else [Char('x')] + Answers(k - 1)
  }

  /** Waiting in the `k`-th loop of the script. */
  ghost predicate AtLoop(base: nat, k: nat, st: State) {
    && Valid(st) && st.phase == Scripting && st.live && !st.semaphore && !st.pausing && !st.scan.on
    && st.scriptindex == k && st.loops.nest == base + k && !st.loops.end
    && st.expecting && st.expectstr == "x" && st.readbuffer == ""
    && st.past == History(NoFault, false, false)
  }

  /** The next LoopStart runs, with nothing in the buffer. */
  lemma EnterNext(n: nat, base: nat, k: nat, st: State)
    requires Ready(k, base + k, "", st) && k < n && base + k <= MAXLOOPNEST - 1
    ensures var r := TimerEvent(NestedScript(n), st);
            if base + k <= MAXLOOPNEST - 2 then AtLoop(base, k + 1, r) else r.past == History(TooDeep, false, false)
  {
    var cfg := NestedScript(n);
    if base + k <= MAXLOOPNEST - 2 {
      TickWaits(cfg, st);
    } else {
      assert TimerEvent(cfg, st) == RunCommand(cfg, st) == Simple(cfg, st);
    }
  }

  lemma ArriveX(cfg: Config, base: nat, k: nat, st: State)
    requires ValidConfig(cfg) && AtLoop(base, k, st)
    ensures var s := st.(expecting := false, expectstr := "x");
            Ready(k, base + k, "", s) && Step(cfg, st, Char('x')) == TimerEvent(cfg, s)
  {
    ContainsAt("x", "x", 0);
    var got := Receive(st, 'x');
    assert got.readbuffer == "x" && After("x", "x") == "";
    var s := got.(expecting := false, readbuffer := "");
    assert TakeExpected(got) == s;
    assert CheckBuffers(cfg, got) == TimerEvent(cfg, s);
  }

  lemma {:induction false} Descend(n: nat, base: nat, k: nat, j: nat, st: State)
    requires AtLoop(base, k, st) && k + j <= n && base + k + j <= MAXLOOPNEST - 1
    ensures AtLoop(base, k + j, Run(NestedScript(n), st, Answers(j)))
    decreases j
  {
    if j > 0 {
      ArriveX(NestedScript(n), base, k, st);
      EnterNext(n, base, k, st.(expecting := false, expectstr := "x"));
      RunFirst(NestedScript(n), st, Char('x'), Answers(j - 1));
      Descend(n, base, k + 1, j - 1, Step(NestedScript(n), st, Char('x')));
    }
  }

  lemma {:induction false} DescendUntilTooDeep(n: nat, base: nat, k: nat, st: State)
    requires AtLoop(base, k, st) && base + k <= MAXLOOPNEST - 1 < base + n
    ensures Run(NestedScript(n), st, Answers(MAXLOOPNEST - base - k)).past == History(TooDeep, false, false)
    decreases n - k
  {
    var rest := MAXLOOPNEST - base - k;
    var next := Step(NestedScript(n), st, Char('x'));
    ArriveX(NestedScript(n), base, k, st);
    EnterNext(n, base, k, st.(expecting := false, expectstr := "x"));
    RunFirst(NestedScript(n), st, Char('x'), Answers(rest - 1));
    if base + k <= MAXLOOPNEST - 2 {
      DescendUntilTooDeep(n, base, k + 1, next);
    }
  }

  /** The events of a session that enters `k` loops of a nested script. */
  function Into(k: nat): seq<Event>
    requires k > 0
  {
    [DialDone] + ([Tick] + Answers(k - 1))
  }

  lemma FirstLoop(n: nat, base: nat, st: State, rest: seq<Event>)
    requires n > 0 && base <= MAXLOOPNEST - 1 && Between(base, st)
    ensures var r := TimerEvent(NestedScript(n), Step(NestedScript(n), Init(st, true), DialDone));
            && Run(NestedScript(n), Init(st, true), [DialDone] + ([Tick] + rest)) == Run(NestedScript(n), r, rest)
            && if base <= MAXLOOPNEST - 2 then AtLoop(base, 1, r) else r.past == History(TooDeep, false, false)
  {
    var cfg := NestedScript(n);
    ScriptBegins(cfg, st, [Tick] + rest);
    var s := Step(cfg, Init(st, true), DialDone);
    RunFirst(cfg, s, Tick, rest);
    EnterNext(n, base, 0, s);
  }

  /** The bound `base` + nesting depth <= MAXLOOPNEST - 1 of module LoginSafety
      is exact: with `base` loops never left and one level more, a session of a
      balanced script ends in "Loops nested too deeply" without any early
      match. */
  lemma TooDeepIsReached(n: nat, base: nat, st: State)
    requires n > 0 && base + n == MAXLOOPNEST && Between(base, st)
    ensures Balanced(Nested(n)) && |Nested(n)| == 2 * n
    ensures Run(NestedScript(n), Init(st, true), Into(n)).past == History(TooDeep, false, false)
  {
    NestedBalanced(n);
    FirstLoop(n, base, st, Answers(n - 1));
    var r := TimerEvent(NestedScript(n), Step(NestedScript(n), Init(st, true), DialDone));
    if base <= MAXLOOPNEST - 2 {
      DescendUntilTooDeep(n, base, 1, r);
    } else {
      assert Answers(0) == [];
    }
  }

  /** A session cancelled inside `k` loops leaves them entered, as `init` keeps
      `loopnest`. */
  lemma CancelLeavesLoops(k: nat, st: State)
    requires 1 <= k <= MAXLOOPNEST - 1 && Between(0, st)
    ensures Between(k, Run(NestedScript(k), Init(st, true), Into(k) + [Cancel]))
  {
    EntersLoops(k, st);
    CancelAtLoop(k, Init(st, true), Into(k));
  }

  lemma EntersLoops(k: nat, st: State)
    requires 1 <= k <= MAXLOOPNEST - 1 && Between(0, st)
    ensures AtLoop(0, k, Run(NestedScript(k), Init(st, true), Into(k)))
  {
    FirstLoop(k, 0, st, Answers(k - 1));
    DescendAll(k, TimerEvent(NestedScript(k), Step(NestedScript(k), Init(st, true), DialDone)));
  }

  lemma DescendAll(k: nat, st: State)
    requires 1 <= k <= MAXLOOPNEST - 1 && AtLoop(0, 1, st)
    ensures AtLoop(0, k, Run(NestedScript(k), st, Answers(k - 1)))
  {
    Descend(k, 0, 1, k - 1, st);
  }

  lemma CancelAtLoop(k: nat, st: State, events: seq<Event>)
    requires Valid(st) && AtLoop(0, k, Run(NestedScript(k), st, events))
    ensures Between(k, Run(NestedScript(k), st, events + [Cancel]))
  {
    var cfg := NestedScript(k);
    RunAppend(cfg, st, events, [Cancel]);
    RunFirst(cfg, Run(cfg, st, events), Cancel, []);
    assert [Cancel] + [] == [Cancel];
  }

  /** Two scripts that the editor accepts: after a session of a new widget that
      is cancelled inside `k` loops, `MAXLOOPNEST` - `k` nested loops are too
      many for the next one. */
  lemma CancelledInsideLoops(k: nat, st: State)
    requires 1 <= k <= MAXLOOPNEST - 1 && Between(0, st)
    ensures var n := MAXLOOPNEST - k;
            && Balanced(Nested(k)) && |Nested(k)| <= MAX_SCRIPT_ENTRIES - 1
            && Balanced(Nested(n)) && |Nested(n)| <= MAX_SCRIPT_ENTRIES - 1
            && RunSessions(st, [Session(NestedScript(k), true, Into(k) + [Cancel]),
                                Session(NestedScript(n), true, Into(n))]).past == History(TooDeep, false, false)
  {
    var n := MAXLOOPNEST - k;
    NestedBalanced(k);
    CancelLeavesLoops(k, st);
    var mid := Run(NestedScript(k), Init(st, true), Into(k) + [Cancel]);
    TooDeepIsReached(n, k, mid);
    RunTwoSessions(st, Session(NestedScript(k), true, Into(k) + [Cancel]), Session(NestedScript(n), true, Into(n)));
  }

  lemma RunTwoSessions(st: State, a: Session, b: Session)
    requires Valid(st) && ValidConfig(a.cfg) && ValidConfig(b.cfg)
    ensures RunSessions(st, [a, b])
         == Run(b.cfg, Init(Run(a.cfg, Init(st, a.modemOpen), a.events), b.modemOpen), b.events)
  {
    var mid := Run(a.cfg, Init(st, a.modemOpen), a.events);
    assert [a, b][1..] == [b] && [b][1..] == [];
    assert RunSessions(mid, [b]) == RunSessions(Run(b.cfg, Init(mid, b.modemOpen), b.events), []);
  }

  ghost function NestedForest(n: nat): Forest {
    if n == 0 then Done else Loop(NestedForest(n - 1), Done)
  }

  lemma {:induction false} NestedBalanced(n: nat)
    ensures WellFormed(NestedForest(n)) && Yield(NestedForest(n)) == Nested(n)
  {
    if n > 0 {
      NestedBalanced(n - 1);
      assert Nested(n) == [LoopStart] + Nested(n - 1) + [LoopEnd] + [];
    }
  }

  // ----- a loop end left pending by an earlier session

  ghost predicate NoDialDone(events: seq<Event>) {
    DialDone !in events
  }

  /** Not in script mode, and no loop end pending. */
  ghost predicate Quiet(st: State) {
    Valid(st) && (st.phase == Dialing || st.phase == Halted) && !st.loops.end
  }

  /** The script stands where it was, and has sent nothing. */
  ghost predicate LeftAlone(st: State, r: State) {
    && Quiet(r) && r.scriptindex == st.scriptindex && r.loops.nest == st.loops.nest && r.sent == st.sent
    && (st.phase == Halted ==> r.phase == Halted)
  }

  /** While dialling a match has no effect but its own. */
  lemma DialingCheck(cfg: Config, st: State)
    requires ValidConfig(cfg) && Valid(st) && st.phase == Dialing && st.expecting && !st.scan.on
    ensures CheckBuffers(cfg, st) == LoopBack(TakeExpected(st))
  {
    assert FinishScan(st.scan) == st.scan;
    var s := LoopBack(TakeExpected(st));
    assert s.live ==> TimerEvent(cfg, s) == s || s.expecting || s.phase != Dialing;
  }

  lemma QuietCheck(cfg: Config, st: State)
    requires ValidConfig(cfg) && Quiet(st)
    ensures LeftAlone(st, CheckBuffers(cfg, st))
  {
    var s := TakeExpected(st.(scan := FinishScan(st.scan)));
    assert Quiet(s) && LoopBack(s) == s;
    assert TimerEvent(cfg, s) == s;
  }

  lemma QuietStep(cfg: Config, st: State, e: Event)
    requires ValidConfig(cfg) && Quiet(st) && (e != DialDone || st.phase == Halted)
    ensures LeftAlone(st, Step(cfg, st, e))
  {
    match e
    case Tick => assert TimerEvent(cfg, st) == st;
    case Char(c) => QuietCheck(cfg, Receive(st, c));
    case DialExpect(n) => QuietCheck(cfg, st.(expecting := true, expectstr := n));
    case _ =>
  }

  lemma {:induction false} QuietRun(cfg: Config, st: State, events: seq<Event>)
    requires ValidConfig(cfg) && Quiet(st) && (NoDialDone(events) || st.phase == Halted)
    ensures LeftAlone(st, Run(cfg, st, events))
    decreases |events|
  {
    if events != [] {
      QuietStep(cfg, st, events[0]);
      QuietRun(cfg, Step(cfg, st, events[0]), events[1..]);
    }
  }

  function Chars(s: string): seq<Event> {
    if s == "" then [] else [Char(s[0])] + Chars(s[1..])
  }

  lemma {:induction false} CharsOnly(s: string)
    ensures NoDialDone(Chars(s))
  {
    if s != "" {
      CharsOnly(s[1..]);
    }
  }

  /** Dialling, with a loop end pending whose string is not in the buffer, and
      waiting for something too long to come in with the next `more` characters. */
  ghost predicate StillPending(st: State, more: nat) {
    && Valid(st) && st.phase == Dialing && st.live && !st.semaphore && !st.pausing && !st.scan.on
    && st.expecting && st.loops.end && InRange(st.loops.nest)
    && |st.readbuffer| + more < |st.expectstr|
    && !Contains(st.readbuffer, st.loops.str[st.loops.nest])
  }

  lemma OneMore(cfg: Config, st: State, c: char)
    requires ValidConfig(cfg) && StillPending(st, 1)
    ensures var r := Step(cfg, st, Char(c));
            if Contains(st.readbuffer + [c], st.loops.str[st.loops.nest])
            then Quiet(r) && r.loops.nest == st.loops.nest + 1
            else r == st.(readbuffer := st.readbuffer + [c])
  {
    var got := Receive(st, c);
    NotInShorter(got.readbuffer, got.expectstr);
    assert TakeExpected(got) == got;
    DialingCheck(cfg, got);
  }

  lemma {:induction false} FeedLoopString(cfg: Config, st: State, before: string, done: string, todo: string)
    requires ValidConfig(cfg) && StillPending(st, |todo|)
    requires st.readbuffer == before + done && st.loops.str[st.loops.nest] == done + todo
    ensures Run(cfg, st, Chars(todo)).loops.nest == st.loops.nest + 1
    decreases |todo|
  {
    if todo == "" {
      assert (before + done)[|before|..|before| + |done|] == done + todo;
      ContainsAt(st.readbuffer, done + todo, |before|);
    } else {
      var c, rest := todo[0], todo[1..];
      OneMore(cfg, st, c);
      var next := Step(cfg, st, Char(c));
      RunFirst(cfg, st, Char(c), Chars(rest));
      if next.loops.nest == st.loops.nest {
        assert before + done + [c] == before + (done + [c]) && done + todo == done + [c] + rest;
        FeedLoopString(cfg, next, before, done + [c], rest);
      } else {
        CharsOnly(rest);
        QuietRun(cfg, next, Chars(rest));
      }
    }
  }

  /** Before script mode a session leaves the script at its first entry and the
      loops alone, whatever comes in, exactly if no loop end is pending when it
      starts; `init` does not reset `loopend`. */
  lemma KeepsStartIff(cfg: Config, st: State)
    requires ValidConfig(cfg) && Bounded(st)
    ensures (forall events | NoDialDone(events) ::
               var r := Run(cfg, Init(st, true), events); r.scriptindex == 0 && r.loops.nest == st.loops.nest)
            <==> !st.loops.end
  {
    if st.loops.end {
      var events := MovedByLoopString(cfg, st);
    } else {
      forall events | NoDialDone(events)
        ensures var r := Run(cfg, Init(st, true), events); r.scriptindex == 0 && r.loops.nest == st.loops.nest
      {
        QuietRun(cfg, Init(st, true), events);
      }
    }
  }

  lemma MovedByLoopString(cfg: Config, st: State) returns (events: seq<Event>)
    requires ValidConfig(cfg) && Bounded(st) && st.loops.end
    ensures NoDialDone(events) && Run(cfg, Init(st, true), events).loops.nest == st.loops.nest + 1
  {
    var text := st.loops.str[st.loops.nest];
    var long := seq(|st.readbuffer| + |text| + 1, _ => 'a');
    var s := Init(st, true);
    events := [DialExpect(long)] + Chars(text);
    CharsOnly(text);
    RunFirst(cfg, s, DialExpect(long), Chars(text));
    NotInShorter(s.readbuffer, long);
    var waiting := s.(expecting := true, expectstr := long);
    assert TakeExpected(waiting) == waiting;
    DialingCheck(cfg, waiting);
    if Contains(s.readbuffer, text) {
      assert Step(cfg, s, DialExpect(long)) == LoopBack(waiting);
      QuietRun(cfg, LoopBack(waiting), Chars(text));
    } else {
      assert Step(cfg, s, DialExpect(long)) == waiting;
      FeedLoopString(cfg, waiting, s.readbuffer, "", text);
    }
  }

  /** A first session that is cancelled while a loop end is pending: in the next
      one the first answer of the modem can skip the first entry of the script,
      without any early match. */
  lemma PendingLoopEndSkipsEntry(cfg: Config, st: State)
    requires ValidConfig(cfg) && Between(0, st)
    ensures var first := Session(NestedScript(1), true, [DialDone] + ([Tick] + [Char('x'), Cancel]));
            var r := RunSessions(st, [first, Session(cfg, true, [DialExpect("OK"), Char('x')])]);
            && Balanced(Nested(1)) && r.phase == Dialing && r.scriptindex == 1 && r.loops.nest == 1
            && r.past == History(NoFault, false, false)
  {
    NestedBalanced(1);
    CancelledAtLoopEnd(st);
    var first := Session(NestedScript(1), true, [DialDone] + ([Tick] + [Char('x'), Cancel]));
    var mid := Run(first.cfg, Init(st, true), first.events);
    AnswerJumps(cfg, mid);
    RunTwo(cfg, Init(mid, true), DialExpect("OK"), Char('x'));
    RunTwoSessions(st, first, Session(cfg, true, [DialExpect("OK"), Char('x')]));
  }

  /** The widget between two sessions, the loop end of the first pending. */
  ghost predicate LeftPending(st: State) {
    && Valid(st) && st.loops.end && st.loops.nest == 0 && st.readbuffer == ""
    && st.loops.start[0] == 1 && st.loops.str[0] == "x" && st.past == History(NoFault, false, false)
  }

  lemma CancelledAtLoopEnd(st: State)
    requires Between(0, st)
    ensures LeftPending(Run(NestedScript(1), Init(st, true), [DialDone] + ([Tick] + [Char('x'), Cancel])))
  {
    var cfg := NestedScript(1);
    FirstLoop(1, 0, st, [Char('x'), Cancel]);
    ScriptBegins(cfg, st, []);
    var begun := Step(cfg, Init(st, true), DialDone);
    FirstSlot(begun);
    CancelWhilePending(TimerEvent(cfg, begun));
  }

  lemma FirstSlot(st: State)
    requires Ready(0, 0, "", st)
    ensures var r := TimerEvent(NestedScript(1), st);
            AtLoop(0, 1, r) && r.loops.start[0] == 1 && r.loops.str[0] == "x"
  {
    TickWaits(NestedScript(1), st);
  }

  lemma CancelWhilePending(st: State)
    requires AtLoop(0, 1, st) && st.loops.start[0] == 1 && st.loops.str[0] == "x"
    ensures LeftPending(Run(NestedScript(1), st, [Char('x'), Cancel]))
  {
    RunTwo(NestedScript(1), st, Char('x'), Cancel);
    ArriveX(NestedScript(1), 0, 1, st);
    EndReached(st.(expecting := false, expectstr := "x"));
  }

  lemma EndReached(st: State)
    requires Ready(1, 1, "", st) && st.loops.start[0] == 1 && st.loops.str[0] == "x"
    ensures LeftPending(TimerEvent(NestedScript(1), st)) && TimerEvent(NestedScript(1), st).live
  {
    TickWaits(NestedScript(1), st);
  }

  lemma AnswerJumps(cfg: Config, st: State)
    requires ValidConfig(cfg) && LeftPending(st)
    ensures var r := Step(cfg, Step(cfg, Init(st, true), DialExpect("OK")), Char('x'));
            && r.phase == Dialing && r.scriptindex == 1 && r.loops.nest == 1 && r.past == st.past
  {
    var s := Init(st, true);
    NotInShorter("", "OK");
    NotInShorter("", "x");
    DialingCheck(cfg, s.(expecting := true, expectstr := "OK"));
    var w := s.(expecting := true, expectstr := "OK");
    assert Step(cfg, s, DialExpect("OK")) == w;
    var got := Receive(w, 'x');
    assert got.readbuffer == "x";
    NotInShorter("x", "OK");
    ContainsAt("x", "x", 0);
    assert TakeExpected(got) == got;
    DialingCheck(cfg, got);
  }

  // ----- timeouts and dialling

  /** After a timeout the widget dials again, and the script, which is not set
      back, goes on with the entry it stood at: it starts over exactly if that is
      the first one. */
  lemma TimeoutResumes(cfg: Config, st: State, events: seq<Event>)
    requires ValidConfig(cfg) && Valid(st) && st.live && !st.semaphore && !st.loops.end && NoDialDone(events)
    requires st.phase == Scripting || st.phase == Answering
    ensures Step(cfg, st, TimedOut).phase == Dialing
    ensures var p := Run(cfg, st, [TimedOut] + events);
            && p.sent == st.sent && p.scriptindex == st.scriptindex && p.loops.nest == st.loops.nest
            && (p.phase == Dialing && p.live && !p.expecting && !p.pausing && !p.semaphore ==>
                  Step(cfg, p, DialDone) == p.(phase := Scripting))
  {
    RunFirst(cfg, st, TimedOut, events);
    QuietRun(cfg, Step(cfg, st, TimedOut), events);
  }

  /** Without a modem a session does nothing. */
  lemma {:induction false} NoModem(cfg: Config, st: State, events: seq<Event>)
    requires ValidConfig(cfg) && Valid(st)
    ensures var s := Init(st, false);
            Run(cfg, s, events) == s && s.phase == Halted && s.sent == st.sent && s.readbuffer == st.readbuffer
    decreases |events|
  {
    if events != [] {
      assert Step(cfg, Init(st, false), events[0]) == Init(st, false);
      assert Init(Init(st, false), false) == Init(st, false);
      NoModem(cfg, Init(st, false), events[1..]);
    }
  }

  /** Once kppp has given up dialling the script sends nothing. */
  lemma GivenUp(cfg: Config, st: State, events: seq<Event>)
    requires ValidConfig(cfg) && Quiet(st) && st.phase == Dialing && st.live
    ensures var r := Run(cfg, st, [DialGiveUp] + events); r.sent == st.sent && r.phase == Halted
  {
    RunFirst(cfg, st, DialGiveUp, events);
    QuietRun(cfg, Step(cfg, st, DialGiveUp), events);
  }

  /** Before redialling nothing is dialled until the pause is over. */
  lemma BusyWaits(cfg: Config, st: State, n: string)
    requires ValidConfig(cfg) && Valid(st) && st.phase == Dialing && st.live && !st.expecting && !st.pausing
    ensures var busy := Step(cfg, st, DialBusy);
            && Step(cfg, busy, DialExpect(n)) == Step(cfg, busy, DialDone) == Step(cfg, busy, Tick) == busy
            && Step(cfg, busy, PauseEnd) == st
  {
  }
}
