/** When the slave's assertion that it holds no copy job fails
    (kget/slave.cpp): the exact step, the exact command lists, what a caller has
    to wait for, and sessions of the scheduler that do not wait. */
module SlaveClash {
  import opened Scheduler
  import opened SlaveQueue
  import SchedulerLimit
  import Sequences

  // ----- the step that fails

  /** Starts a job without ending the one before. */
  predicate Plain(c: Command) {
    c == Retr || c == RetrCache
  }

  predicate StartsJob(c: Command) {
    Plain(c) || c == Restart
  }

  /** Would carrying out `c` fail? */
  predicate Clashes(sl: Shared, c: Command) {
    c == Abort || (Plain(c) && sl.copyjob)
  }

  /** An assertion of the slave fails exactly when the worker carries out Retr or
      RetrCache while it holds a job, or Abort. */
  lemma FailsIff(s: State, step: Step)
    ensures Next(s, step).slave.failed
       <==> s.slave.failed || (step.WorkerMoves? && s.worker.WDo? && Clashes(s.slave, s.worker.cmd))
  {
    match step
    case WorkerMoves =>
      if s.worker.WDo? {
        ExecuteFailsIff(s.slave, s.worker.cmd);
      }
    case GuiMoves =>
    case _ =>
  }

  lemma ExecuteFailsIff(sl: Shared, c: Command)
    ensures Execute(sl, c).failed <==> sl.failed || Clashes(sl, c)
    ensures Execute(sl, c).copyjob <==> StartsJob(c) || (c == Abort && sl.copyjob)
    ensures Execute(sl, c).stack == sl.stack
  {
  }

  // ----- a caller that waits

  function HeldByGui(pc: GuiPc): seq<Command> {
    match pc
    case GStart(c) => [c]
    case GLock(c) => [c]
    case GPush(c) => [c]
    case _ => []
  }

  /** A Noop is no command of the caller's. */
  function HeldByWorker(pc: WorkerPc): seq<Command> {
    match pc
    case WUnlock(c) => if c == Noop then [] else [c]
    case WDo(c) => if c == Noop then [] else [c]
    case _ => []
  }

  /** The commands given and not yet carried out. */
  function Outstanding(s: State): seq<Command> {
    HeldByWorker(s.worker) + s.slave.stack + HeldByGui(s.gui)
  }

  /** May a caller give `c` now? */
  ghost predicate MayCall(s: State, c: Command) {
    Outstanding(s) == [] && c != Noop && !Clashes(s.slave, c)
  }

  /** Every command that is given finds the one before carried out. */
  ghost predicate Waited(steps: seq<Step>) {
    steps == []
    || (Waited(steps[..|steps| - 1])
        && var s := SlaveQueue.Run(steps[..|steps| - 1]);
           (steps[|steps| - 1].Call? && s.gui == GIdle ==> MayCall(s, steps[|steps| - 1].cmd)))
  }

  ghost predicate Calm(s: State) {
    && !s.slave.failed && InOrder(s) && |Outstanding(s)| <= 1
    && forall c <- Outstanding(s) :: c != Noop && !Clashes(s.slave, c)
  }

  lemma GuiKeepsOutstanding(s: State)
    ensures var r := GuiStep(s);
            && Outstanding(r) == Outstanding(s)
            && r.slave.copyjob == s.slave.copyjob && r.slave.failed == s.slave.failed
  {
    match s.gui
    case GPush(c) => Sequences.Assoc(HeldByWorker(s.worker), s.slave.stack, [c]);
    case _ =>
  }

  lemma GuiStaysCalm(s: State)
    requires Calm(s)
    ensures Calm(GuiStep(s))
  {
    OthersKeepOrder(s, GuiMoves);
    GuiKeepsOutstanding(s);
  }

  lemma OneLeft(s: State)
    requires Calm(s) && s.worker == WPop && s.slave.stack != []
    ensures |s.slave.stack| == 1 && Outstanding(s) == s.slave.stack && Outstanding(WorkerStep(s)) == s.slave.stack
  {
    assert HeldByGui(s.gui) == [];
    assert Outstanding(s) == s.slave.stack;
    assert s.slave.stack[0] in Outstanding(s);
  }

  lemma PopStaysCalm(s: State)
    requires Calm(s) && s.worker == WPop
    ensures Calm(WorkerStep(s))
  {
    if s.slave.stack != [] {
      OneLeft(s);
      PopKeepsOrderIff(s);
    }
  }

  lemma DoStaysCalm(s: State, c: Command)
    requires Calm(s) && s.worker == WDo(c)
    ensures Calm(WorkerStep(s))
  {
    OthersKeepOrder(s, WorkerMoves);
    ExecuteFailsIff(s.slave, c);
    if c == Noop {
      assert Outstanding(WorkerStep(s)) == Outstanding(s);
    } else {
      assert Outstanding(s)[0] == c;
      assert Outstanding(WorkerStep(s)) == [];
    }
  }

  /** The other steps of the worker carry nothing out. */
  lemma TakesNothing(s: State)
    requires s.worker != WPop && !s.worker.WDo?
    ensures var r := WorkerStep(s);
            && r.fetched == s.fetched && HeldByWorker(r.worker) == HeldByWorker(s.worker) && r.gui == s.gui
            && r.slave.stack == s.slave.stack && r.slave.copyjob == s.slave.copyjob && r.slave.failed == s.slave.failed
  {
  }

  lemma WorkerStaysCalm(s: State)
    requires Calm(s)
    ensures Calm(WorkerStep(s))
  {
    match s.worker
    case WPop => PopStaysCalm(s);
    case WDo(c) => DoStaysCalm(s, c);
    case _ =>
      OthersKeepOrder(s, WorkerMoves);
      TakesNothing(s);
  }

  lemma NextStaysCalm(s: State, step: Step)
    requires Calm(s) && (step.Call? && s.gui == GIdle ==> MayCall(s, step.cmd))
    ensures Calm(Next(s, step))
  {
    match step
    case GuiMoves => GuiStaysCalm(s);
    case WorkerMoves => WorkerStaysCalm(s);
    case Call(c) =>
      OthersKeepOrder(s, step);
      if s.gui == GIdle {
        assert s.slave.stack == [] && HeldByWorker(s.worker) == [];
        assert Outstanding(Next(s, step)) == [c];
      }
    case _ =>
      OthersKeepOrder(s, step);
      assert Outstanding(Next(s, step)) == Outstanding(s);
  }

  /** A caller who gives each command only when the one before has been carried
      out, and Retr or RetrCache only when there is no job, is safe in every
      interleaving: no assertion fails and the order is kept. */
  lemma {:induction false} WaitingIsSafe(steps: seq<Step>)
    requires Waited(steps)
    ensures Calm(SlaveQueue.Run(steps)) && AlwaysInOrder(steps)
  {
    if steps != [] {
      WaitingIsSafe(steps[..|steps| - 1]);
      NextStaysCalm(SlaveQueue.Run(steps[..|steps| - 1]), steps[|steps| - 1]);
    }
  }

  // ----- a caller that does not wait

  function JobStarts(m: multiset<Command>): nat {
    m[Retr] + m[RetrCache] + m[Restart]
  }

  /** Among the commands is Abort, or Retr or RetrCache with another one that
      starts a job. */
  predicate Clashing(m: multiset<Command>) {
    m[Abort] > 0 || (m[Retr] + m[RetrCache] > 0 && JobStarts(m) > 1)
  }

  /** What was fetched explains the job and the failure. */
  ghost predicate Explained(s: State) {
    var held, got := multiset(HeldByWorker(s.worker)), multiset(s.fetched);
    && held <= got
    && (s.slave.copyjob ==> JobStarts(got) > JobStarts(held))
    && (s.slave.failed ==> Clashing(got))
  }

  lemma WorkerExplained(s: State)
    requires Explained(s)
    ensures Explained(WorkerStep(s))
  {
    match s.worker
    case WPop => PopExplained(s);
    case WDo(c) => CarriedOut(s.slave, c, multiset(s.fetched));
    case _ => TakesNothing(s);
  }

  lemma PopExplained(s: State)
    requires Explained(s) && s.worker == WPop
    ensures Explained(WorkerStep(s))
  {
    if s.slave.stack != [] {
      var c := s.slave.stack[|s.slave.stack| - 1];
      assert multiset(s.fetched + [c]) == multiset(s.fetched) + multiset{c};
      HeldOne(c);
    }
  }

  lemma HeldOne(c: Command)
    ensures multiset(HeldByWorker(WUnlock(c))) == multiset(HeldByWorker(WDo(c)))
         == if c == Noop then multiset{} else multiset{c}
  {
  }

  lemma CarriedOut(sl: Shared, c: Command, got: multiset<Command>)
    requires var held := multiset(HeldByWorker(WDo(c)));
             held <= got && (sl.copyjob ==> JobStarts(got) > JobStarts(held)) && (sl.failed ==> Clashing(got))
    ensures var r := Execute(sl, c);
            (r.copyjob ==> JobStarts(got) > 0) && (r.failed ==> Clashing(got))
  {
    ExecuteFailsIff(sl, c);
    if c != Noop {
      assert multiset(HeldByWorker(WDo(c)))[c] == 1;
      assert got[c] > 0;
    }
  }

  lemma {:induction false} RunExplained(steps: seq<Step>)
    ensures Explained(SlaveQueue.Run(steps))
  {
    if steps != [] {
      RunExplained(steps[..|steps| - 1]);
      NextExplained(SlaveQueue.Run(steps[..|steps| - 1]), steps[|steps| - 1]);
    }
  }

  lemma NextExplained(s: State, step: Step)
    requires Explained(s)
    ensures Explained(Next(s, step))
  {
    match step
    case WorkerMoves => WorkerExplained(s);
    case GuiMoves => GuiFetchesNothing(s);
    case _ =>
  }

  lemma GuiFetchesNothing(s: State)
    ensures var r := GuiStep(s);
            && r.fetched == s.fetched && HeldByWorker(r.worker) == HeldByWorker(s.worker)
            && r.slave.copyjob == s.slave.copyjob && r.slave.failed == s.slave.failed
  {
  }

  ghost predicate Reachable(s: State) {
    exists steps :: SlaveQueue.Run(steps) == s
  }

  lemma ReachNext(s: State, step: Step)
    requires Reachable(s)
    ensures Reachable(Next(s, step))
  {
    var steps :| SlaveQueue.Run(steps) == s;
    assert (steps + [step])[..|steps + [step]| - 1] == steps;
    assert SlaveQueue.Run(steps + [step]) == Next(s, step);
  }

  /** Nobody is in the middle of anything. */
  ghost predicate Ready(s: State) {
    Reachable(s) && s.gui == GIdle && s.mutex == Owner.Free && (s.worker == WOff || s.worker == WTest)
  }

  lemma ReachOp(s: State, c: Command)
    requires Reachable(s)
    ensures Reachable(OpMoves(s, c))
  {
    ReachNext(s, Call(c));
    var s0 := Next(s, Call(c));
    ReachNext(s0, GuiMoves);
    var s1 := GuiStep(s0);
    ReachNext(s1, GuiMoves);
    var s2 := GuiStep(s1);
    ReachNext(s2, GuiMoves);
    var s3 := GuiStep(s2);
    ReachNext(s3, GuiMoves);
    var s4 := GuiStep(s3);
    ReachNext(s4, GuiMoves);
    ReachNext(GuiStep(s4), GuiMoves);
  }

  /** The command is given and stays on the stack. */
  lemma Hold(s: State, c: Command) returns (r: State)
    requires Ready(s)
    ensures Ready(r) && r.worker == WTest && r.pushed == s.pushed + [c]
    ensures r.slave == Pushed(s.slave, c)
  {
    r := OpMoves(s, c);
    ReachOp(s, c);
    OpAlone(s, c);
  }

  lemma WorkerReaches(s: State)
    requires Reachable(s)
    ensures Reachable(WorkerStep(s)) && WorkerStep(s).pushed == s.pushed
  {
    ReachNext(s, WorkerMoves);
  }

  lemma ReachFetch(s: State)
    requires Reachable(s)
    ensures Reachable(FetchMoves(s)) && FetchMoves(s).pushed == s.pushed
  {
    WorkerReaches(s);
    WorkerReaches(WorkerStep(s));
    WorkerReaches(WorkerStep(WorkerStep(s)));
    WorkerReaches(WorkerStep(WorkerStep(WorkerStep(s))));
  }

  /** The worker takes the last command and carries it out. */
  lemma Take(s: State) returns (r: State)
    requires Ready(s) && s.worker == WTest && s.slave.stack != []
    ensures Ready(r) && r.pushed == s.pushed && r.slave == Execute(Popped(s.slave), s.slave.stack[|s.slave.stack| - 1])
    ensures r.worker == if EndsWorker(s.slave.stack[|s.slave.stack| - 1]) then WOff else WTest
  {
    var steps :| SlaveQueue.Run(steps) == s;
    QueueIsSafe(steps);
    var t := WorkerStep(s);
    ReachNext(s, WorkerMoves);
    FetchAlone(t);
    ReachFetch(t);
    ReachNext(FetchMoves(t), WorkerMoves);
    r := WorkerStep(FetchMoves(t));
  }

  /** The command is given and carried out at once. */
  lemma Serve(s: State, c: Command) returns (r: State)
    requires Ready(s)
    ensures Ready(r) && r.worker == (if EndsWorker(c) then WOff else WTest) && r.pushed == s.pushed + [c]
    ensures r.slave == Execute(s.slave, c)
  {
    var h := Hold(s, c);
    Sequences.LastApart([], h.slave.stack);
    assert h.slave.stack[..|h.slave.stack| - 1] == s.slave.stack;
    assert Popped(h.slave) == s.slave;
    r := Take(h);
  }

  lemma {:induction false} HoldAll(s: State, cs: seq<Command>) returns (r: State)
    requires Ready(s)
    ensures Ready(r) && r.pushed == s.pushed + cs
    ensures r.slave.copyjob == s.slave.copyjob && r.slave.failed == s.slave.failed
  {
    r := s;
    if cs == [] {
      Sequences.EmptyLast(s.pushed);
    } else {
      var h := HoldAll(s, cs[..|cs| - 1]);
      r := Hold(h, cs[|cs| - 1]);
      Sequences.LastApart(s.pushed, cs);
    }
  }

  lemma {:induction false} ServeAll(s: State, cs: seq<Command>) returns (r: State)
    requires Ready(s)
    ensures Ready(r) && r.pushed == s.pushed + cs && r.slave.stack == s.slave.stack
    ensures s.slave.failed ==> r.slave.failed
  {
    r := s;
    if cs == [] {
      Sequences.EmptyLast(s.pushed);
    } else {
      var h := ServeAll(s, cs[..|cs| - 1]);
      ExecuteFailsIff(h.slave, cs[|cs| - 1]);
      r := Serve(h, cs[|cs| - 1]);
      Sequences.LastApart(s.pushed, cs);
    }
  }

  /** Everything before is carried out at once, then `c` starts a job. */
  lemma FirstJob(s: State, before: seq<Command>, c: Command) returns (r: State)
    requires Ready(s) && StartsJob(c)
    ensures Ready(r) && r.pushed == s.pushed + (before + [c]) && r.slave.copyjob
  {
    var t := ServeAll(s, before);
    ExecuteFailsIff(t.slave, c);
    r := Serve(t, c);
    Sequences.Assoc(s.pushed, before, [c]);
  }

  /** The commands in between stay on the stack, below the second one. */
  lemma PlainSecond(s: State, between: seq<Command>, c: Command) returns (r: State)
    requires Ready(s) && s.slave.copyjob && Plain(c)
    ensures Ready(r) && r.pushed == s.pushed + (between + [c]) && r.slave.failed
  {
    var t := HoldAll(s, between);
    ExecuteFailsIff(t.slave, c);
    r := Serve(t, c);
    Sequences.Assoc(s.pushed, between, [c]);
  }

  /** The first one stays on the stack, below those in between. */
  lemma PlainFirst(s: State, c: Command, between: seq<Command>, d: Command) returns (r: State)
    requires Ready(s) && Plain(c) && StartsJob(d)
    ensures Ready(r) && r.pushed == s.pushed + [c] + (between + [d]) && r.slave.failed
  {
    var h := Hold(s, c);
    var t := ServeAll(h, between);
    ExecuteFailsIff(t.slave, d);
    var u := Serve(t, d);
    Sequences.Assoc(h.pushed, between, [d]);
    Sequences.LastApart([], u.slave.stack);
    assert u.slave.stack == s.slave.stack + [c];
    ExecuteFailsIff(Popped(u.slave), c);
    r := Take(u);
  }

  lemma AtOf(cs: seq<Command>, c: Command) returns (i: nat)
    requires multiset(cs)[c] > 0
    ensures i < |cs| && cs[i] == c
  {
    assert c in multiset(cs);
    assert c in cs;
    i :| 0 <= i < |cs| && cs[i] == c;
  }

  lemma Without(cs: seq<Command>, p: nat)
    requires p < |cs|
    ensures multiset(cs) == multiset(cs[..p] + cs[p + 1..]) + multiset{cs[p]}
  {
    assert cs == cs[..p] + ([cs[p]] + cs[p + 1..]);
  }

  /** Two that start jobs, one of them without ending the job before. */
  lemma TwoStarts(cs: seq<Command>) returns (i: nat, j: nat)
    requires multiset(cs)[Retr] + multiset(cs)[RetrCache] > 0 && JobStarts(multiset(cs)) > 1
    ensures i < j < |cs| && StartsJob(cs[i]) && StartsJob(cs[j]) && (Plain(cs[i]) || Plain(cs[j]))
  {
    var p := AtOf(cs, if multiset(cs)[Retr] > 0 then Retr else RetrCache);
    var rest := cs[..p] + cs[p + 1..];
    Without(cs, p);
    var m := multiset(rest);
    var k := AtOf(rest, if m[Retr] > 0 then Retr else if m[RetrCache] > 0 then RetrCache else Restart);
    if k < p {
      i, j := k, p;
    } else {
      i, j := p, k + 1;
    }
  }

  lemma SplitAt(cs: seq<Command>, i: nat)
    requires i < |cs|
    ensures cs == [] + cs[..i] + [cs[i]] + cs[i + 1..]
  {
  }

  lemma SplitTwice(cs: seq<Command>, i: nat, j: nat)
    requires i < j < |cs|
    ensures cs == [] + (cs[..i] + [cs[i]]) + (cs[i + 1..j] + [cs[j]]) + cs[j + 1..]
    ensures cs == [] + cs[..i] + [cs[i]] + (cs[i + 1..j] + [cs[j]]) + cs[j + 1..]
  {
  }

  lemma AbortServed(cs: seq<Command>) returns (r: State)
    requires multiset(cs)[Abort] > 0
    ensures Reachable(r) && r.pushed == cs && r.slave.failed
  {
    var start := Begin();
    var i := AtOf(cs, Abort);
    var t := ServeAll(start, cs[..i]);
    ExecuteFailsIff(t.slave, Abort);
    var u := Serve(t, Abort);
    r := HoldAll(u, cs[i + 1..]);
    SplitAt(cs, i);
  }

  lemma TwoServed(cs: seq<Command>) returns (r: State)
    requires multiset(cs)[Retr] + multiset(cs)[RetrCache] > 0 && JobStarts(multiset(cs)) > 1
    ensures Reachable(r) && r.pushed == cs && r.slave.failed
  {
    var start := Begin();
    var i, j := TwoStarts(cs);
    var t;
    if Plain(cs[j]) {
      t := FirstJob(start, cs[..i], cs[i]);
      t := PlainSecond(t, cs[i + 1..j], cs[j]);
    } else {
      t := ServeAll(start, cs[..i]);
      t := PlainFirst(t, cs[i], cs[i + 1..j], cs[j]);
    }
    r := HoldAll(t, cs[j + 1..]);
    SplitTwice(cs, i, j);
  }

  /** Nothing given yet. */
  lemma Begin() returns (r: State)
    ensures Ready(r) && r.pushed == [] && r.slave == Shared([], 0, false, [], false)
  {
    r := Start();
    assert SlaveQueue.Run([]) == r;
  }

  /** Some interleaving in which `cs` are given fails. */
  ghost predicate MayFail(cs: seq<Command>) {
    exists steps :: SlaveQueue.Run(steps).pushed == cs && SlaveQueue.Run(steps).slave.failed
  }

  lemma ClashIsReached(cs: seq<Command>)
    requires Clashing(multiset(cs))
    ensures MayFail(cs)
  {
    var r;
    if multiset(cs)[Abort] > 0 {
      r := AbortServed(cs);
    } else {
      r := TwoServed(cs);
    }
    var steps :| SlaveQueue.Run(steps) == r;
    assert SlaveQueue.Run(steps).pushed == cs;
  }

  lemma FailureClashes(steps: seq<Step>)
    requires SlaveQueue.Run(steps).slave.failed
    ensures Clashing(multiset(SlaveQueue.Run(steps).pushed))
  {
    QueueIsSafe(steps);
    RunExplained(steps);
  }

  /** Commands given without regard to the worker: some interleaving fails
      exactly if Abort is among them, or Retr or RetrCache together with another
      command that starts a job. */
  lemma ClashesIff(cs: seq<Command>)
    ensures MayFail(cs) <==> Clashing(multiset(cs))
  {
    if Clashing(multiset(cs)) {
      ClashIsReached(cs);
    }
    if MayFail(cs) {
      var steps :| SlaveQueue.Run(steps).pushed == cs && SlaveQueue.Run(steps).slave.failed;
      FailureClashes(steps);
    }
  }

  // ----- sessions that do not wait

  /** A transfer delayed while its job is still connecting, then queued again:
      the slave is not told of the delay, so its job goes on, and it is told to
      start another.  No event of the session waits for the slave. */
  lemma DelayedThenQueued(cfg: Settings, now: int)
    requires 1 <= cfg.limit
    ensures var events := SchedulerLimit.DelayedFirst() + [UserQueue(0)];
            var r := Scheduler.Run(cfg, SchedulerLimit.Online(now), events);
            && AllAllowed(cfg, SchedulerLimit.Online(now), events)
            && |r.items| == 1 && r.items[0].issued == [Retr, Retr] && !r.items[0].failed
            && MayFail(r.items[0].issued)
  {
    var m, it := SchedulerLimit.Online(now), Resume(cfg, NewItem(false, now));
    SchedulerLimit.OneDownload(cfg, now);
    SchedulerLimit.DelayedWhileTrying(cfg, now);
    var one := m.(items := [it]);
    SchedulerLimit.DelayAlone(cfg, one, it);
    var delayed := m.(items := [ExecDelay(it)]);
    SchedulerLimit.RunNextFrom(cfg, m, [Add(false)], UserDelay(0), one, delayed);
    QueueAlone(cfg, delayed, ExecDelay(it));
    var started := m.(items := [Resume(cfg, Queue(ExecDelay(it)))]);
    SchedulerLimit.RunNextFrom(cfg, m, SchedulerLimit.DelayedFirst(), UserQueue(0), delayed, started);
    SchedulerLimit.AllowedNext(cfg, m, SchedulerLimit.DelayedFirst(), UserQueue(0));
    ClashesIff([Retr, Retr]);
  }

  lemma QueueAlone(cfg: Settings, m: Main, it: Item)
    requires m.items == [it] && it.status == Stopped && !m.Offline() && 1 <= cfg.limit
    ensures Scheduler.Step(cfg, m, UserQueue(0)) == m.(items := [Resume(cfg, Queue(it))])
  {
    assert [it][0 := Queue(it)] == [Queue(it)];
    StartsAlone(cfg, m.(items := [Queue(it)]), Queue(it));
  }

  lemma StartsAlone(cfg: Settings, m: Main, it: Item)
    requires m.items == [it] && it.status == Stopped && it.mode == Queued && !m.Offline() && 1 <= cfg.limit
    ensures CheckQueue(cfg, m) == m.(items := [Resume(cfg, it)])
  {
    assert [it][..0] == [];
    assert ActiveCount([it]) == 0;
    assert Scheduler.Starts(cfg, [it], 0);
    assert StartQueued(cfg, [it]) == [Resume(cfg, it)];
    assert CheckNew(cfg, [Resume(cfg, it)]) == [Resume(cfg, it)];
  }

  /** kget goes offline and online again while a transfer's job is running.  No
      event of the session waits for the slave. */
  lemma OfflineAndBack(cfg: Settings, now: int)
    requires 1 <= cfg.limit
    ensures var events := [Add(false)] + [Toggle] + [Toggle];
            var r := Scheduler.Run(cfg, SchedulerLimit.Online(now), events);
            && AllAllowed(cfg, SchedulerLimit.Online(now), events)
            && |r.items| == 1 && r.items[0].issued == [Retr, Kill, Retr] && !r.items[0].failed
            && MayFail(r.items[0].issued)
  {
    var m, it := SchedulerLimit.Online(now), Resume(cfg, NewItem(false, now));
    SchedulerLimit.OneDownload(cfg, now);
    var one := m.(items := [it]);
    ToggleTwice(cfg, one, it);
    var stopped := one.(offlineMode := true, items := [Stop(it)]);
    var back := one.(items := [Resume(cfg, Stop(it))]);
    SchedulerLimit.RunNextFrom(cfg, m, [Add(false)], Toggle, one, stopped);
    SchedulerLimit.AllowedNext(cfg, m, [Add(false)], Toggle);
    SchedulerLimit.RunNextFrom(cfg, m, [Add(false)] + [Toggle], Toggle, stopped, back);
    SchedulerLimit.AllowedNext(cfg, m, [Add(false)] + [Toggle], Toggle);
    ClashesIff([Retr, Kill, Retr]);
  }

  lemma ToggleTwice(cfg: Settings, m: Main, it: Item)
    requires m.items == [it] && it.status == Trying && !m.offlineMode && m.connected && 1 <= cfg.limit
    ensures var stopped := m.(offlineMode := true, items := [Stop(it)]);
            Scheduler.Step(cfg, m, Toggle) == stopped
            && Scheduler.Step(cfg, stopped, Toggle) == m.(items := [Resume(cfg, Stop(it))])
  {
    assert StopAll([it]) == [Stop(it)];
    assert CheckNew(cfg, [Stop(it)]) == [Stop(it)];
    StartsAlone(cfg, m.(items := [Stop(it)]), Stop(it));
  }
}
