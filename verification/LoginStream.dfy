/** What a script without loops does to the stream of received characters.
    However characters, ticks and pauses interleave, the interpreter is a
    leftmost-greedy matcher of its Expect strings, and that matcher is complete. */
module LoginStream {
  import opened Text
  import opened Script
  import opened LoginMachine

  // ----- the matcher

  datatype Rest = Stuck | Left(rest: string)

  /** Take the leftmost occurrence of each string in turn. */
  ghost function Consume(exps: seq<string>, s: string): Rest {
    if exps == [] then Left(s)
    else if Contains(s, exps[0]) then Consume(exps[1..], After(s, exps[0]))
    else Stuck
  }

  /** How many strings are found that way, and what is left then. */
  ghost function Greedy(exps: seq<string>, s: string): (nat, string) {
    if exps == [] || !Contains(s, exps[0]) then (0, s)
    else
      var (n, rest) := Greedy(exps[1..], After(s, exps[0]));
      (n + 1, rest)
  }

  lemma {:induction false} ConsumeSnoc(exps: seq<string>, e: string, s: string)
    ensures Consume(exps + [e], s) ==
            match Consume(exps, s)
            case Stuck => Stuck
            case Left(r) => if Contains(r, e) then Left(After(r, e)) else Stuck
  {
    if exps == [] {
      assert ([] + [e])[1..] == [];
    } else {
      assert (exps + [e])[1..] == exps[1..] + [e];
      if Contains(s, exps[0]) {
        ConsumeSnoc(exps[1..], e, After(s, exps[0]));
      }
    }
  }

  lemma {:induction false} ConsumeExtend(exps: seq<string>, s: string, more: string)
    requires Consume(exps, s).Left?
    ensures Consume(exps, s + more) == Left(Consume(exps, s).rest + more)
  {
    if exps != [] {
      AfterExtend(s, exps[0], more);
      ConsumeExtend(exps[1..], After(s, exps[0]), more);
    }
  }

  lemma {:induction false} GreedyFromConsume(done: seq<string>, todo: seq<string>, s: string)
    requires Consume(done, s).Left? && (todo == [] || !Contains(Consume(done, s).rest, todo[0]))
    ensures Greedy(done + todo, s) == (|done|, Consume(done, s).rest)
  {
    if done == [] {
      assert [] + todo == todo;
    } else {
      assert (done + todo)[1..] == done[1..] + todo;
      GreedyFromConsume(done[1..], todo, After(s, done[0]));
    }
  }

  // ----- the matcher is complete

  /** `p` places the strings in `s` in order and without overlap. */
  ghost predicate Placed(exps: seq<string>, s: string, p: seq<nat>) {
    && |p| == |exps|
    && (forall k: nat | k < |p| :: MatchAt(s, p[k], exps[k]))
    && (forall k: nat | k + 1 < |p| :: p[k] + |exps[k]| <= p[k + 1])
  }

  ghost predicate OccursInOrder(exps: seq<string>, s: string) {
    exists p :: Placed(exps, s, p)
  }

  lemma {:induction false} GreedyComplete(exps: seq<string>, s: string, p: seq<nat>)
    requires Placed(exps, s, p)
    ensures Greedy(exps, s).0 == |exps|
  {
    if exps != [] {
      ContainsAt(s, exps[0], p[0]);
      var cut := Find(s, exps[0]) + |exps[0]|;
      var rest := After(s, exps[0]);
      assert forall k: nat | k < |p| - 1 :: p[k] + |exps[k]| <= p[k + 1];
      OrderedFrom(exps, p);
      var q := seq(|p| - 1, k requires 0 <= k < |p| - 1 && p[k + 1] >= cut => (p[k + 1] - cut) as nat);
      forall k: nat | k < |q| ensures MatchAt(rest, q[k], exps[1..][k]) {
        assert MatchAt(s, p[k + 1], exps[k + 1]);
        assert rest[q[k]..q[k] + |exps[k + 1]|] == s[p[k + 1]..p[k + 1] + |exps[k + 1]|];
      }
      forall k: nat | k + 1 < |q| ensures q[k] + |exps[1..][k]| <= q[k + 1] {
        assert p[k + 1] + |exps[k + 1]| <= p[k + 2];
      }
      GreedyComplete(exps[1..], rest, q);
    }
  }

  lemma {:induction false} OrderedFrom(exps: seq<string>, p: seq<nat>)
    requires |p| == |exps| > 0
    requires forall k: nat | k + 1 < |p| :: p[k] + |exps[k]| <= p[k + 1]
    ensures forall k: nat | 0 < k < |p| :: p[0] + |exps[0]| <= p[k]
  {
    if |p| > 1 {
      assert p[0] + |exps[0]| <= p[0 + 1];
      forall k: nat | k + 1 < |p[1..]| ensures p[1..][k] + |exps[1..][k]| <= p[1..][k + 1] {
        assert p[k + 1] + |exps[k + 1]| <= p[k + 2];
      }
      OrderedFrom(exps[1..], p[1..]);
      forall k: nat | 0 < k < |p| ensures p[0] + |exps[0]| <= p[k] {
        if k > 1 {
          assert p[1..][0] + |exps[1..][0]| <= p[1..][k - 1];
        }
      }
    }
  }

  lemma {:induction false} GreedySound(exps: seq<string>, s: string) returns (p: seq<nat>)
    requires Greedy(exps, s).0 == |exps|
    ensures Placed(exps, s, p)
  {
    if exps == [] {
      p := [];
    } else {
      FindLeftmost(s, exps[0]);
      var rest := After(s, exps[0]);
      assert Greedy(exps[1..], rest).0 == |exps[1..]|;
      var q := GreedySound(exps[1..], rest);
      p := PlacedBehind(exps, s, Find(s, exps[0]), q);
    }
  }

  lemma PlacedBehind(exps: seq<string>, s: string, at: nat, q: seq<nat>) returns (p: seq<nat>)
    requires exps != [] && MatchAt(s, at, exps[0]) && Placed(exps[1..], s[at + |exps[0]|..], q)
    ensures Placed(exps, s, p)
  {
    var cut := at + |exps[0]|;
    p := [at] + seq(|q|, k requires 0 <= k < |q| => q[k] + cut);
    forall k: nat | k < |p| ensures MatchAt(s, p[k], exps[k]) {
      if k > 0 {
        ShiftedMatch(s, cut, q[k - 1], exps[1..][k - 1]);
      }
    }
    forall k: nat | k + 1 < |p| ensures p[k] + |exps[k]| <= p[k + 1] {
      if k > 0 {
        assert q[k - 1] + |exps[1..][k - 1]| <= q[k];
      }
    }
  }

  lemma ShiftedMatch(s: string, cut: nat, i: nat, t: string)
    requires cut <= |s| && MatchAt(s[cut..], i, t)
    ensures MatchAt(s, i + cut, t)
  {
    assert s[cut..][i..i + |t|] == s[i + cut..i + cut + |t|];
  }

  /** Leftmost-greedy matching finds all strings whenever any placement does. */
  lemma GreedyIffOccurs(exps: seq<string>, s: string)
    ensures Greedy(exps, s).0 == |exps| <==> OccursInOrder(exps, s)
  {
    if Greedy(exps, s).0 == |exps| {
      var p := GreedySound(exps, s);
    }
    if OccursInOrder(exps, s) {
      var p :| Placed(exps, s, p);
      GreedyComplete(exps, s, p);
    }
  }

  // ----- the script seen as a matcher

  ghost predicate LoopFree(cfg: Config) {
    && ValidConfig(cfg)
    && forall c <- cfg.comlist :: c in {Expect, Send, SendNoEcho, Pause, Timeout, Save}
  }

  /** The strings of the Expect commands among the first `i` entries. */
  ghost function Expects(cfg: Config, i: nat): (r: seq<string>)
    requires |cfg.comlist| == |cfg.arglist| && i <= |cfg.comlist|
  {
    if i == 0 then []
    else Expects(cfg, i - 1) + if cfg.comlist[i - 1] == Expect then [cfg.arglist[i - 1]] else []
  }

  /** The lines sent by the first `i` entries. */
  ghost function Sends(cfg: Config, i: nat): (r: seq<string>)
    requires |cfg.comlist| == |cfg.arglist| && i <= |cfg.comlist|
  {
    if i == 0 then []
    else Sends(cfg, i - 1) + if cfg.comlist[i - 1] in {Send, SendNoEcho} then [cfg.arglist[i - 1]] else []
  }

  lemma {:induction false} ExpectsPrefix(cfg: Config, i: nat, j: nat)
    requires |cfg.comlist| == |cfg.arglist| && i <= j <= |cfg.comlist|
    ensures Expects(cfg, i) <= Expects(cfg, j)
    ensures i < j && cfg.comlist[i] == Expect ==>
              |Expects(cfg, i)| < |Expects(cfg, j)| && Expects(cfg, j)[|Expects(cfg, i)|] == cfg.arglist[i]
  {
    if i < j {
      ExpectsPrefix(cfg, i, j - 1);
    }
  }

  /** With stream `s` received so far, the script stands where the matcher
      does.  `sent` is what had been sent before the script began. */
  ghost predicate Follows(cfg: Config, sent: seq<string>, s: string, st: State)
    requires |cfg.comlist| == |cfg.arglist|
  {
    var i := st.scriptindex;
    && Valid(st) && st.live && !st.loops.end && !st.scan.on && !st.semaphore
    && i <= |cfg.comlist| && st.sent == sent + Sends(cfg, i)
    && (st.phase == Scripting || (st.phase == Finished && i == |cfg.comlist| && !st.expecting))
    && (st.pausing ==> !st.expecting)
    && (if st.expecting
        then i > 0 && cfg.comlist[i - 1] == Expect && st.expectstr == cfg.arglist[i - 1]
          && Consume(Expects(cfg, i - 1), s) == Left(st.readbuffer)
        else Consume(Expects(cfg, i), s) == Left(st.readbuffer))
  }

  ghost predicate Settled(cfg: Config, sent: seq<string>, s: string, st: State)
    requires |cfg.comlist| == |cfg.arglist|
  {
    Follows(cfg, sent, s, st) && (st.expecting ==> !Contains(st.readbuffer, st.expectstr))
  }

  lemma {:induction false} CheckBuffersFollows(cfg: Config, sent: seq<string>, s: string, st: State)
    requires LoopFree(cfg) && Follows(cfg, sent, s, st)
    ensures Settled(cfg, sent, s, CheckBuffers(cfg, st)) || CheckBuffers(cfg, st).semaphore
    decreases |st.readbuffer|, Bit(st.loops.end), Rem(cfg, st), if st.expectstr == "" then 2 else 0, 0
  {
    if st.expecting && Contains(st.readbuffer, st.expectstr) {
      var s1 := TakeExpected(st);
      ConsumeSnoc(Expects(cfg, st.scriptindex - 1), st.expectstr, s);
      assert CheckBuffers(cfg, st) == TimerEvent(cfg, s1);
      TimerEventFollows(cfg, sent, s, s1);
    }
  }

  lemma {:induction false} TimerEventFollows(cfg: Config, sent: seq<string>, s: string, st: State)
    requires LoopFree(cfg) && Settled(cfg, sent, s, st)
    ensures Settled(cfg, sent, s, TimerEvent(cfg, st)) || TimerEvent(cfg, st).semaphore
    decreases |st.readbuffer|, Bit(st.loops.end), Rem(cfg, st), 1, 2
  {
    if !st.pausing && !st.expecting && st.phase == Scripting {
      assert TimerEvent(cfg, st) == RunCommand(cfg, st);
      if st.scriptindex < |cfg.comlist| {
        assert cfg.comlist[st.scriptindex] in cfg.comlist;
        if cfg.comlist[st.scriptindex] == Expect {
          var waiting := Prepare(cfg, st).(expecting := true, expectstr := Awaited(cfg, st));
          CheckBuffersFollows(cfg, sent, s, waiting);
          assert RunCommand(cfg, st) == CheckBuffers(cfg, waiting);
        } else {
          SimpleFollows(cfg, sent, s, st);
        }
      }
    }
  }

  lemma SimpleFollows(cfg: Config, sent: seq<string>, s: string, st: State)
    requires LoopFree(cfg) && Settled(cfg, sent, s, st)
    requires !st.expecting && !st.pausing && st.phase == Scripting && st.scriptindex < |cfg.comlist|
    requires cfg.comlist[st.scriptindex] in {Send, SendNoEcho, Pause, Timeout, Save}
    ensures RunCommand(cfg, st) == Simple(cfg, st) && Settled(cfg, sent, s, Simple(cfg, st))
  {
    var i, r := st.scriptindex, Simple(cfg, st);
    assert r.scriptindex == i + 1;
    assert Expects(cfg, i + 1) == Expects(cfg, i);
    assert r.sent == sent + Sends(cfg, i + 1);
  }

  // ----- runs

  ghost predicate StreamEvents(events: seq<Event>) {
    forall e <- events :: e.Tick? || e.Char? || e.PauseEnd?
  }

  /** The characters of a run, in order. */
  ghost function Stream(events: seq<Event>): string {
    if events == [] then ""
    else (if events[0].Char? then [events[0].c] else "") + Stream(events[1..])
  }

  ghost function Heard(s: string, e: Event): string {
    if e.Char? then s + [e.c] else s
  }

  /** Once pppd has taken over, characters are no longer read. */
  ghost predicate OnTrack(cfg: Config, sent: seq<string>, s: string, st: State)
    requires |cfg.comlist| == |cfg.arglist|
  {
    Valid(st) && (st.semaphore || Settled(cfg, sent, s, st))
  }

  lemma StepFollows(cfg: Config, sent: seq<string>, s: string, st: State, e: Event)
    requires LoopFree(cfg) && (e.Tick? || e.Char? || e.PauseEnd?)
    requires OnTrack(cfg, sent, s, st)
    ensures OnTrack(cfg, sent, Heard(s, e), Step(cfg, st, e))
  {
    if !st.semaphore {
      match e
      case Tick => TimerEventFollows(cfg, sent, s, st);
      case PauseEnd =>
      case Char(c) =>
        ConsumeExtend(Expects(cfg, if st.expecting then st.scriptindex - 1 else st.scriptindex), s, [c]);
        CheckBuffersFollows(cfg, sent, s + [c], Receive(st, c));
    }
  }

  lemma {:induction false} RunFollows(cfg: Config, sent: seq<string>, s: string, st: State, events: seq<Event>)
    requires LoopFree(cfg) && StreamEvents(events) && OnTrack(cfg, sent, s, st)
    ensures OnTrack(cfg, sent, s + Stream(events), Run(cfg, st, events))
    decreases |events|
  {
    if events == [] {
      assert s + "" == s;
    } else {
      StepFollows(cfg, sent, s, st, events[0]);
      RunFollows(cfg, sent, Heard(s, events[0]), Step(cfg, st, events[0]), events[1..]);
      HeardFirst(s, events);
    }
  }

  lemma HeardFirst(s: string, events: seq<Event>)
    requires events != []
    ensures Heard(s, events[0]) + Stream(events[1..]) == s + Stream(events)
  {
    if events[0].Char? {
      assert s + [events[0].c] + Stream(events[1..]) == s + ([events[0].c] + Stream(events[1..]));
    } else {
      assert "" + Stream(events[1..]) == Stream(events[1..]);
    }
  }

  /** Script mode has just been entered with `readbuffer` holding what came in
      before. */
  ghost predicate Begins(st: State) {
    && Valid(st) && st.live && st.phase == Scripting && st.scriptindex == 0 && !st.expecting
    && !st.loops.end && !st.scan.on && !st.semaphore && !st.pausing
  }

  /** No tick would get the script any further: it waits for a string, or has
      ended and not yet handed over to pppd. */
  ghost predicate Quiescent(st: State) {
    !st.semaphore && !st.pausing && (st.expecting || st.phase == Finished)
  }

  ghost function Completed(cfg: Config, st: State): nat
    requires |cfg.comlist| == |cfg.arglist| && st.scriptindex <= |cfg.comlist|
    requires st.expecting ==> st.scriptindex > 0
  {
    |Expects(cfg, if st.expecting then st.scriptindex - 1 else st.scriptindex)|
  }

  /** The state `r` is where matching the stream `s` greedily leads. */
  ghost predicate Outcome(cfg: Config, sent: seq<string>, s: string, r: State)
    requires |cfg.comlist| == |cfg.arglist|
  {
    var all := Expects(cfg, |cfg.comlist|);
    && r.scriptindex <= |cfg.comlist| && (r.expecting ==> r.scriptindex > 0)
    && (Completed(cfg, r), r.readbuffer) == Greedy(all, s)
    && r.sent == sent + Sends(cfg, r.scriptindex)
    && (r.phase == Finished <==> OccursInOrder(all, s))
    && (r.phase == Finished ==> r.scriptindex == |cfg.comlist| && !r.expecting)
    && (r.phase != Finished ==>
          && r.phase == Scripting && r.expecting && cfg.comlist[r.scriptindex - 1] == Expect
          && r.expectstr == cfg.arglist[r.scriptindex - 1])
  }

  /** A quiescent run has matched exactly what the greedy matcher matches on the
      whole stream, and it ends iff the strings occur in order in the stream. */
  lemma QuiescentIsGreedy(cfg: Config, st: State, events: seq<Event>)
    requires LoopFree(cfg) && Begins(st) && StreamEvents(events)
    requires Quiescent(Run(cfg, st, events))
    ensures Outcome(cfg, st.sent, st.readbuffer + Stream(events), Run(cfg, st, events))
  {
    assert st.sent == st.sent + Sends(cfg, 0);
    RunFollows(cfg, st.sent, st.readbuffer, st, events);
    SettledOutcome(cfg, st.sent, st.readbuffer + Stream(events), Run(cfg, st, events));
  }

  lemma SettledOutcome(cfg: Config, sent: seq<string>, s: string, r: State)
    requires LoopFree(cfg) && Settled(cfg, sent, s, r) && Quiescent(r)
    ensures Outcome(cfg, sent, s, r)
  {
    var n := |cfg.comlist|;
    var at := if r.expecting then r.scriptindex - 1 else r.scriptindex;
    var done, all := Expects(cfg, at), Expects(cfg, n);
    ExpectsPrefix(cfg, at, n);
    assert all == done + all[|done|..];
    GreedyFromConsume(done, all[|done|..], s);
    GreedyIffOccurs(all, s);
  }

  /** Only the received characters count: two quiescent runs that received the
      same stream agree, whatever their ticks and pauses. */
  lemma InterleavingIndependent(cfg: Config, st: State, events1: seq<Event>, events2: seq<Event>)
    requires LoopFree(cfg) && Begins(st) && StreamEvents(events1) && StreamEvents(events2)
    requires Stream(events1) == Stream(events2)
    requires Quiescent(Run(cfg, st, events1)) && Quiescent(Run(cfg, st, events2))
    ensures var r1, r2 := Run(cfg, st, events1), Run(cfg, st, events2);
            && r1.phase == r2.phase && r1.scriptindex == r2.scriptindex
            && r1.expecting == r2.expecting && r1.readbuffer == r2.readbuffer && r1.sent == r2.sent
  {
    QuiescentIsGreedy(cfg, st, events1);
    QuiescentIsGreedy(cfg, st, events2);
    OutcomeUnique(cfg, st.sent, st.readbuffer + Stream(events1), Run(cfg, st, events1), Run(cfg, st, events2));
  }

  lemma OutcomeUnique(cfg: Config, sent: seq<string>, s: string, r1: State, r2: State)
    requires LoopFree(cfg) && Outcome(cfg, sent, s, r1) && Outcome(cfg, sent, s, r2)
    ensures r1.phase == r2.phase && r1.scriptindex == r2.scriptindex && r1.sent == r2.sent
    ensures r1.expecting == r2.expecting && r1.readbuffer == r2.readbuffer
  {
    if r1.phase != Finished {
      SameExpect(cfg, r1.scriptindex - 1, r2.scriptindex - 1);
    }
  }

  lemma SameExpect(cfg: Config, i: nat, j: nat)
    requires |cfg.comlist| == |cfg.arglist| && i < |cfg.comlist| && j < |cfg.comlist|
    requires cfg.comlist[i] == Expect && cfg.comlist[j] == Expect
    requires |Expects(cfg, i)| == |Expects(cfg, j)|
    ensures i == j
  {
    if i < j {
      ExpectsPrefix(cfg, i, j);
    } else if j < i {
      ExpectsPrefix(cfg, j, i);
    }
  }
}
