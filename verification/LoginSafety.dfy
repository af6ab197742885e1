/** Loops of the login-script interpreter: the balance check of the editor is
    sound for it.  The dynamic loop arrays of ConnectWidget always agree with
    the static nesting of the script. */
module LoginSafety {
  import opened Text
  import opened Script
  import opened LoginMachine

  /** Slot `base + k` of the loop arrays describes the k-th open loop. */
  ghost predicate Slot(cfg: Config, base: nat, start: seq<nat>, str: seq<string>, open: seq<nat>, k: nat)
    requires k < |open|
  {
    && base + k < |start| && base + k < |str|
    && open[k] < |cfg.arglist|
    && start[base + k] == open[k] + 1 && str[base + k] == cfg.arglist[open[k]]
  }

  ghost predicate SlotsMatch(cfg: Config, base: nat, l: Loops, open: seq<nat>) {
    forall k: nat | k < |open| :: Slot(cfg, base, l.start, l.str, open, k)
  }

  /** No script position nests deeper than the arrays allow when `base` slots
      are taken already. */
  ghost predicate Fits(cs: seq<Command>, base: nat) {
    forall i: nat | i <= |cs| :: base + |Open(cs, i)| <= MAXLOOPNEST - 1
  }

  ghost predicate GoodScript(cfg: Config, base: nat) {
    ValidConfig(cfg) && Balanced(cfg.comlist) && Fits(cfg.comlist, base)
  }

  ghost predicate Inv(cfg: Config, base: nat, st: State)
    requires |cfg.comlist| == |cfg.arglist|
  {
    var cs, i := cfg.comlist, st.scriptindex;
    && Valid(st) && i <= |cs|
    && st.past == History(NoFault, false, false)
    && st.loops.nest == base + |Open(cs, i)|
    && (st.loops.end ==> st.expecting && i > 0 && cs[i - 1] == LoopEnd && st.phase != Answering)
    && (st.phase == Answering ==> i < |cs| && cs[i] == Answer)
    && SlotsMatch(cfg, base, st.loops, if st.loops.end then Open(cs, i - 1) else Open(cs, i))
  }

  ghost predicate Early(st: State) {
    st.past.earlyLoop || st.past.earlyWait
  }

  ghost predicate Sound(cfg: Config, base: nat, st: State)
    requires |cfg.comlist| == |cfg.arglist|
  {
    Early(st) || Inv(cfg, base, st)
  }

  lemma OpenStep(cs: seq<Command>, i: nat)
    requires Balanced(cs) && i < |cs|
    ensures cs[i] == LoopStart ==> Open(cs, i + 1) == Open(cs, i) + [i]
    ensures cs[i] == LoopEnd ==> Open(cs, i) != [] && Open(cs, i + 1) == Open(cs, i)[..|Open(cs, i)| - 1]
    ensures cs[i] != LoopStart && cs[i] != LoopEnd ==> Open(cs, i + 1) == Open(cs, i)
  {
    if cs[i] == LoopEnd {
      EndHasMatch(cs, i);
    }
  }

  /** A pending LoopEnd jumps to the entry behind its matching LoopStart. */
  lemma LoopBackTarget(cfg: Config, base: nat, st: State) returns (m: nat)
    requires GoodScript(cfg, base) && Inv(cfg, base, st) && st.loops.end
    ensures InRange(st.loops.nest) && Matches(cfg.comlist, m, st.scriptindex - 1)
    ensures Inv(cfg, base, LoopBack(st)) && LoopBack(st).live == st.live
    ensures LoopBack(st) == st || LoopBack(st).scriptindex == m + 1
  {
    m := PendingTarget(cfg, base, st);
    if LoopBack(st) != st {
      LoopBackInv(cfg, base, st, m);
    }
  }

  lemma PendingTarget(cfg: Config, base: nat, st: State) returns (m: nat)
    requires GoodScript(cfg, base) && Inv(cfg, base, st) && st.loops.end
    ensures InRange(st.loops.nest) && Matches(cfg.comlist, m, st.scriptindex - 1)
    ensures st.loops.start[st.loops.nest] == m + 1
    ensures Open(cfg.comlist, m + 1) == Open(cfg.comlist, st.scriptindex - 1)
    ensures st.loops.nest + 1 == base + |Open(cfg.comlist, m + 1)|
  {
    var cs, j := cfg.comlist, st.scriptindex - 1;
    m := MatchSameStack(cs, j);
    OpenStep(cs, j);
    FitsAt(cs, base, j);
    PendingSlot(cfg, base, st, m);
  }

  lemma PendingSlot(cfg: Config, base: nat, st: State, m: nat)
    requires ValidConfig(cfg) && Inv(cfg, base, st) && st.loops.end
    requires var open := Open(cfg.comlist, st.scriptindex - 1);
             && open != [] && m == open[|open| - 1]
             && Open(cfg.comlist, st.scriptindex) == open[..|open| - 1]
             && base + |open| <= MAXLOOPNEST - 1
    ensures InRange(st.loops.nest) && m < |cfg.arglist|
    ensures st.loops.start[st.loops.nest] == m + 1 && st.loops.str[st.loops.nest] == cfg.arglist[m]
    ensures st.loops.nest + 1 == base + |Open(cfg.comlist, st.scriptindex - 1)|
  {
    var open := Open(cfg.comlist, st.scriptindex - 1);
    assert Slot(cfg, base, st.loops.start, st.loops.str, open, |open| - 1);
  }

  lemma FitsAt(cs: seq<Command>, base: nat, i: nat)
    requires Fits(cs, base) && i <= |cs|
    ensures base + |Open(cs, i)| <= MAXLOOPNEST - 1
  {
  }

  lemma LoopBackInv(cfg: Config, base: nat, st: State, m: nat)
    requires ValidConfig(cfg) && Inv(cfg, base, st) && st.loops.end
    requires InRange(st.loops.nest) && LoopBack(st) != st
    requires m < |cfg.comlist| && st.loops.start[st.loops.nest] == m + 1
    requires cfg.comlist[m] == LoopStart
    requires Open(cfg.comlist, m + 1) == Open(cfg.comlist, st.scriptindex - 1)
    requires st.loops.nest + 1 == base + |Open(cfg.comlist, m + 1)|
    ensures Inv(cfg, base, LoopBack(st)) && LoopBack(st).live == st.live
    ensures LoopBack(st).scriptindex == m + 1
  {
    var open := Open(cfg.comlist, m + 1);
    forall k: nat | k < |open| ensures Slot(cfg, base, st.loops.start, st.loops.str, open, k) {
      assert Slot(cfg, base, st.loops.start, st.loops.str, open, k);
    }
  }

  lemma TakeExpectedInv(cfg: Config, base: nat, st: State)
    requires GoodScript(cfg, base) && Inv(cfg, base, st) && st.expecting
    ensures Inv(cfg, base, TakeExpected(st)) && TakeExpected(st).live == st.live
  {
    if st.loops.end {
      var cs, i := cfg.comlist, st.scriptindex;
      OpenStep(cs, i - 1);
      forall k: nat | k < |Open(cs, i)| ensures Slot(cfg, base, st.loops.start, st.loops.str, Open(cs, i), k) {
        assert Slot(cfg, base, st.loops.start, st.loops.str, Open(cs, i - 1), k);
      }
    }
  }

  /** Without an immediate match `setExpect` only starts waiting. */
  lemma NotImmediate(cfg: Config, st: State, n: string)
    requires ValidConfig(cfg) && Valid(st) && !Immediate(st, n)
    requires st.loops.end ==> InRange(st.loops.nest)
    ensures SetExpect(cfg, st, n) == st.(expecting := true, expectstr := n, scan := FinishScan(st.scan))
  {
  }

  lemma {:induction false} CheckBuffersSound(cfg: Config, base: nat, st: State)
    requires GoodScript(cfg, base) && Inv(cfg, base, st)
    ensures Sound(cfg, base, CheckBuffers(cfg, st))
    decreases |st.readbuffer|, Bit(st.loops.end), Rem(cfg, st), if st.expectstr == "" then 2 else 0, 0
  {
    var s0 := st.(scan := FinishScan(st.scan));
    if s0.expecting {
      TakeExpectedInv(cfg, base, s0);
      var s := TakeExpected(s0);
      if s.loops.end {
        var _ := LoopBackTarget(cfg, base, s);
      }
      var s1 := LoopBack(s);
      if !s1.expecting && s1.live {
        TimerEventSound(cfg, base, s1);
      }
    }
  }

  lemma {:induction false} TimerEventSound(cfg: Config, base: nat, st: State)
    requires GoodScript(cfg, base) && Inv(cfg, base, st)
    ensures Sound(cfg, base, TimerEvent(cfg, st))
    decreases |st.readbuffer|, Bit(st.loops.end), Rem(cfg, st), 1, 2
  {
    if st.semaphore || st.pausing || st.expecting {
    } else if st.phase == Answering {
      if !Immediate(st, cfg.answerResp) {
        NotImmediate(cfg, WriteLine(st, cfg.answerStr), cfg.answerResp);
        OpenStep(cfg.comlist, st.scriptindex);
      }
    } else if st.phase == Scripting && !st.scan.on && st.scriptindex < |cfg.comlist| {
      if Waits(cfg, st) {
        WaitingCommandSound(cfg, base, st);
      } else {
        SimpleSound(cfg, base, st);
      }
    }
  }

  lemma {:induction false} WaitingCommandSound(cfg: Config, base: nat, st: State)
    requires GoodScript(cfg, base) && Inv(cfg, base, st) && !st.expecting
    requires st.phase == Scripting && st.scriptindex < |cfg.comlist| && Waits(cfg, st)
    ensures Sound(cfg, base, RunCommand(cfg, st))
    decreases |st.readbuffer|, Bit(st.loops.end), Rem(cfg, st), 1, 0
  {
    if cfg.comlist[st.scriptindex] == Expect {
      var waiting := Prepare(cfg, st).(expecting := true, expectstr := Awaited(cfg, st));
      ExpectInv(cfg, base, st, waiting);
      CheckBuffersSound(cfg, base, waiting);
    } else if Immediate(Prepare(cfg, st), Awaited(cfg, st)) {
      ImmediateIsEarly(cfg, st);
    } else {
      NotYetSound(cfg, base, st);
    }
  }

  lemma ExpectInv(cfg: Config, base: nat, st: State, t: State)
    requires GoodScript(cfg, base) && Inv(cfg, base, st) && !st.expecting && st.phase == Scripting
    requires st.scriptindex < |cfg.comlist| && cfg.comlist[st.scriptindex] == Expect
    requires t == Prepare(cfg, st).(expecting := true, expectstr := Awaited(cfg, st))
    ensures Inv(cfg, base, t)
  {
    OpenStep(cfg.comlist, st.scriptindex);
  }

  lemma ImmediateIsEarly(cfg: Config, st: State)
    requires ValidConfig(cfg) && Valid(st) && st.scriptindex < |cfg.comlist| && Waits(cfg, st)
    requires cfg.comlist[st.scriptindex] != Expect && Immediate(Prepare(cfg, st), Awaited(cfg, st))
    ensures Early(RunCommand(cfg, st))
  {
  }

  lemma NotYetSound(cfg: Config, base: nat, st: State)
    requires GoodScript(cfg, base) && Inv(cfg, base, st) && !st.expecting
    requires st.phase == Scripting && st.scriptindex < |cfg.comlist| && Waits(cfg, st)
    requires cfg.comlist[st.scriptindex] != Expect && !Immediate(Prepare(cfg, st), Awaited(cfg, st))
    ensures Inv(cfg, base, RunCommand(cfg, st))
  {
    NotImmediate(cfg, Prepare(cfg, st), Awaited(cfg, st));
    var s := SetExpect(cfg, Prepare(cfg, st), Awaited(cfg, st));
    OpenStep(cfg.comlist, st.scriptindex);
    match cfg.comlist[st.scriptindex]
    case LoopStart => EnterLoopSound(cfg, base, st, s);
    case LoopEnd => LoopEndSound(cfg, base, st, s);
    case _ => HangupSound(cfg, base, st, s);
  }

  lemma LoopEndSound(cfg: Config, base: nat, st: State, s: State)
    requires ValidConfig(cfg) && Inv(cfg, base, st) && !st.loops.end && st.phase == Scripting
    requires st.scriptindex < |cfg.comlist| && cfg.comlist[st.scriptindex] == LoopEnd
    requires |Open(cfg.comlist, st.scriptindex + 1)| == |Open(cfg.comlist, st.scriptindex)| - 1
    requires !Immediate(Prepare(cfg, st), Awaited(cfg, st))
    requires s == Prepare(cfg, st).(expecting := true, expectstr := Awaited(cfg, st), scan := s.scan)
    ensures Inv(cfg, base, Complete(cfg, st, s))
  {
  }

  lemma HangupSound(cfg: Config, base: nat, st: State, s: State)
    requires ValidConfig(cfg) && Inv(cfg, base, st) && !st.loops.end && st.phase == Scripting
    requires st.scriptindex < |cfg.comlist| && cfg.comlist[st.scriptindex] in {Hangup, Answer}
    requires Open(cfg.comlist, st.scriptindex + 1) == Open(cfg.comlist, st.scriptindex)
    requires !Immediate(Prepare(cfg, st), Awaited(cfg, st))
    requires s == Prepare(cfg, st).(expecting := true, expectstr := Awaited(cfg, st), scan := s.scan)
    ensures Inv(cfg, base, Complete(cfg, st, s))
  {
  }

  lemma EnterLoopSound(cfg: Config, base: nat, st: State, s: State)
    requires GoodScript(cfg, base) && Inv(cfg, base, st) && !st.loops.end
    requires st.scriptindex < |cfg.comlist| && cfg.comlist[st.scriptindex] == LoopStart
    requires Valid(s) && s.loops == st.loops && s.past == st.past && s.scriptindex == st.scriptindex + 1
    requires s.phase == Scripting
    ensures Inv(cfg, base, EnterLoop(s, cfg.arglist[st.scriptindex]))
  {
    OpenStep(cfg.comlist, st.scriptindex);
    var open := Open(cfg.comlist, st.scriptindex);
    assert base + |open + [st.scriptindex]| <= MAXLOOPNEST - 1;
    var r := EnterLoop(s, cfg.arglist[st.scriptindex]);
    forall k: nat | k < |open| + 1 ensures Slot(cfg, base, r.loops.start, r.loops.str, open + [st.scriptindex], k) {
      if k < |open| {
        assert Slot(cfg, base, st.loops.start, st.loops.str, open, k);
      }
    }
  }

  lemma SimpleSound(cfg: Config, base: nat, st: State)
    requires GoodScript(cfg, base) && Inv(cfg, base, st) && !st.expecting
    requires st.phase == Scripting && st.scriptindex < |cfg.comlist| && !Waits(cfg, st)
    ensures Inv(cfg, base, Simple(cfg, st))
  {
    NoLoopCommand(cfg, base, st);
    PassiveKeeps(cfg, base, st, Simple(cfg, st));
  }

  lemma NoLoopCommand(cfg: Config, base: nat, st: State)
    requires GoodScript(cfg, base) && Inv(cfg, base, st) && !st.expecting
    requires st.scriptindex < |cfg.comlist| && !Waits(cfg, st)
    ensures cfg.comlist[st.scriptindex] !in {LoopStart, LoopEnd}
  {
    OpenStep(cfg.comlist, st.scriptindex);
    FitsAt(cfg.comlist, base, st.scriptindex + 1);
  }

  lemma PassiveKeeps(cfg: Config, base: nat, st: State, r: State)
    requires GoodScript(cfg, base) && Inv(cfg, base, st) && !st.expecting
    requires st.phase == Scripting && st.scriptindex < |cfg.comlist|
    requires cfg.comlist[st.scriptindex] !in {LoopStart, LoopEnd} && Passive(st, r)
    ensures Inv(cfg, base, r)
  {
    OpenStep(cfg.comlist, st.scriptindex);
  }

  lemma {:induction false} StepSound(cfg: Config, base: nat, st: State, e: Event)
    requires GoodScript(cfg, base) && Inv(cfg, base, st)
    ensures Sound(cfg, base, Step(cfg, st, e))
  {
    if st.live {
      match e
      case Tick => TimerEventSound(cfg, base, st);
      case Char(c) => CharSound(cfg, base, st, c);
      case DialExpect(n) => DialExpectSound(cfg, base, st, n);
      case _ =>
    }
  }

  lemma CharSound(cfg: Config, base: nat, st: State, c: char)
    requires GoodScript(cfg, base) && Inv(cfg, base, st)
    ensures Sound(cfg, base, ReadChar(cfg, st, c))
  {
    if !st.semaphore {
      CheckBuffersSound(cfg, base, Receive(st, c));
    }
  }

  lemma DialExpectSound(cfg: Config, base: nat, st: State, n: string)
    requires GoodScript(cfg, base) && Inv(cfg, base, st)
    ensures Sound(cfg, base, Step(cfg, st, DialExpect(n)))
  {
    if st.phase == Dialing && !st.semaphore && !st.pausing {
      CheckBuffersSound(cfg, base, st.(expecting := true, expectstr := n));
    }
  }

  /** A state in which `init` has just started a session while the first
      `base` loop slots were left behind by earlier sessions. */
  ghost predicate SessionStart(base: nat, st: State) {
    && Valid(st) && st.loops.nest == base && !st.loops.end && st.scriptindex == 0
    && st.phase != Answering && st.past == History(NoFault, false, false)
  }

  /** Every run of a session with a balanced script that fits keeps the loop
      arrays equal to the static nesting and reaches no error branch, as long
      as no awaited string was buffered already at LoopStart, LoopEnd, Hangup
      or Answer. */
  lemma {:induction false} SessionSound(cfg: Config, base: nat, st: State, events: seq<Event>)
    requires GoodScript(cfg, base) && (SessionStart(base, st) || Inv(cfg, base, st))
    ensures Sound(cfg, base, Run(cfg, st, events))
    decreases |events|
  {
    if events != [] {
      var next := Step(cfg, st, events[0]);
      StepSound(cfg, base, st, events[0]);
      if Inv(cfg, base, next) {
        SessionSound(cfg, base, next, events[1..]);
      }
    }
  }

  /** The widget as its constructor leaves it and the editor's guarantees: a
      script accepted by the check, one entry short of the maximum. */
  lemma CheckedScriptIsSafe(cfg: Config, st: State, events: seq<Event>)
    requires ValidConfig(cfg) && Balanced(cfg.comlist) && |cfg.comlist| <= MAX_SCRIPT_ENTRIES - 1
    requires SessionStart(0, st)
    ensures var r := Run(cfg, st, events); r.past.earlyLoop || r.past.earlyWait || NestedRight(cfg, r)
  {
    ShortScriptFits(cfg.comlist);
    SessionSound(cfg, 0, st, events);
    var r := Run(cfg, st, events);
    if !Early(r) {
      InvNestedRight(cfg, r);
    }
  }

  /** No error has been reported, `loopnest` is the depth of the entry in the
      script, and a pending loop end points behind its LoopStart. */
  ghost predicate NestedRight(cfg: Config, r: State) {
    && Valid(r) && r.past.fault == NoFault
    && r.scriptindex <= |cfg.comlist|
    && r.loops.nest == Depth(cfg.comlist, r.scriptindex)
    && (r.loops.end ==> PointsBehindStart(cfg, r))
  }

  ghost predicate PointsBehindStart(cfg: Config, r: State)
    requires Valid(r)
  {
    && InRange(r.loops.nest) && r.scriptindex > 0 && r.loops.start[r.loops.nest] > 0
    && Matches(cfg.comlist, r.loops.start[r.loops.nest] - 1, r.scriptindex - 1)
  }

  lemma InvNestedRight(cfg: Config, r: State)
    requires GoodScript(cfg, 0) && Inv(cfg, 0, r)
    ensures NestedRight(cfg, r)
  {
    NestIsDepth(cfg, r);
    if r.loops.end {
      PendingPoints(cfg, r);
    }
  }

  lemma PendingPoints(cfg: Config, r: State)
    requires GoodScript(cfg, 0) && Inv(cfg, 0, r) && r.loops.end
    ensures PointsBehindStart(cfg, r)
  {
    var m := PendingTarget(cfg, 0, r);
  }

  lemma NestIsDepth(cfg: Config, r: State)
    requires GoodScript(cfg, 0) && Inv(cfg, 0, r)
    ensures r.loops.nest == Depth(cfg.comlist, r.scriptindex)
  {
    CountedIffBalanced(cfg.comlist);
    OpenDepth(cfg.comlist, r.scriptindex);
  }

  lemma ShortScriptFits(cs: seq<Command>)
    requires Balanced(cs) && |cs| <= MAX_SCRIPT_ENTRIES - 1
    ensures Fits(cs, 0)
  {
    forall i: nat | i <= |cs| ensures 0 + |Open(cs, i)| <= MAXLOOPNEST - 1 {
      DepthAtMostHalf(cs, i);
    }
  }

  // ----- any script, any number of sessions

  ghost predicate Bounded(st: State) {
    && Valid(st) && st.past.fault != OutOfRange
    && 0 <= st.loops.nest <= MAXLOOPNEST - 1
    && (st.loops.end ==> st.loops.nest <= MAXLOOPNEST - 2)
  }

  ghost predicate BoundedUnlessEarly(st: State) {
    st.past.earlyLoop || Bounded(st)
  }

  lemma {:induction false} CheckBuffersBounded(cfg: Config, st: State)
    requires ValidConfig(cfg) && Bounded(st)
    ensures BoundedUnlessEarly(CheckBuffers(cfg, st))
    decreases |st.readbuffer|, Bit(st.loops.end), Rem(cfg, st), if st.expectstr == "" then 2 else 0, 0
  {
    var s0 := st.(scan := FinishScan(st.scan));
    if s0.expecting {
      var s1 := LoopBack(TakeExpected(s0));
      if !s1.expecting && s1.live {
        TimerEventBounded(cfg, s1);
      }
    }
  }

  lemma {:induction false} TimerEventBounded(cfg: Config, st: State)
    requires ValidConfig(cfg) && Bounded(st)
    ensures BoundedUnlessEarly(TimerEvent(cfg, st))
    decreases |st.readbuffer|, Bit(st.loops.end), Rem(cfg, st), 1, 2
  {
    if st.semaphore || st.pausing || st.expecting {
    } else if st.phase == Answering {
      var p := WriteLine(st, cfg.answerStr);
      CheckBuffersBounded(cfg, p.(expecting := true, expectstr := cfg.answerResp));
    } else if st.phase == Scripting && !st.scan.on && st.scriptindex < |cfg.comlist| {
      if Waits(cfg, st) {
        WaitingCommandBounded(cfg, st);
      } else {
      }
    }
  }

  lemma {:induction false} WaitingCommandBounded(cfg: Config, st: State)
    requires ValidConfig(cfg) && Bounded(st)
    requires st.scriptindex < |cfg.comlist| && Waits(cfg, st)
    ensures BoundedUnlessEarly(RunCommand(cfg, st))
    decreases |st.readbuffer|, Bit(st.loops.end), Rem(cfg, st), 1, 0
  {
    var p, n := Prepare(cfg, st), Awaited(cfg, st);
    var c := cfg.comlist[st.scriptindex];
    if c == LoopStart || c == LoopEnd {
      if !Immediate(p, n) {
        NotImmediate(cfg, p, n);
      }
    } else {
      CheckBuffersBounded(cfg, p.(expecting := true, expectstr := n));
    }
  }

  lemma {:induction false} RunBounded(cfg: Config, st: State, events: seq<Event>)
    requires ValidConfig(cfg) && Bounded(st)
    ensures BoundedUnlessEarly(Run(cfg, st, events))
    decreases |events|
  {
    if events != [] {
      var next := Step(cfg, st, events[0]);
      if st.live {
        match events[0]
        case Tick => TimerEventBounded(cfg, st);
        case Char(c) =>
          if !st.semaphore {
            CheckBuffersBounded(cfg, Receive(st, c));
          }
        case DialExpect(n) =>
          if st.phase == Dialing && !st.semaphore && !st.pausing {
            CheckBuffersBounded(cfg, st.(expecting := true, expectstr := n));
          }
        case _ =>
      }
      if Bounded(next) {
        RunBounded(cfg, next, events[1..]);
      }
    }
  }

  /** For every script, balanced or not, and across any number of sessions no
      access leaves the loop arrays, unless a string was buffered already at a
      LoopStart or LoopEnd. */
  lemma {:induction false} LoopArraysInRange(st: State, sessions: seq<Session>)
    requires Bounded(st) && forall s <- sessions :: ValidConfig(s.cfg)
    ensures BoundedUnlessEarly(RunSessions(st, sessions))
    decreases |sessions|
  {
    if sessions != [] {
      var s := sessions[0];
      RunBounded(s.cfg, Init(st, s.modemOpen), s.events);
      var next := Run(s.cfg, Init(st, s.modemOpen), s.events);
      if Bounded(next) {
        LoopArraysInRange(next, sessions[1..]);
      }
    }
  }
}
