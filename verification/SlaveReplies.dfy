/** What becomes of a command given to a slave: it is answered once, and the
    answer does to the transfer what the user asked for (kget/slave.cpp,
    kget/transfer.cpp). */
module SlaveReplies {
  import opened Scheduler
  import opened SlaveQueue
  import opened SlaveClash
  import SchedulerStarts
  import Sequences

  // ----- answers

  /** A started download and every request of the user is answered; stopping the
      thread is not. */
  function Answer(c: Command): seq<Message> {
    match c
    case Retr => [Resumed]
    case Restart => [Resumed]
    case Pause => [Paused]
    case Remove => [Removed]
    case Schedule => [ToSchedule]
    case Delay => [ToDelay]
    case _ => []
  }

  function Answers(cs: seq<Command>): seq<Message> {
    if cs == [] then [] else Answers(cs[..|cs| - 1]) + Answer(cs[|cs| - 1])
  }

  /** The commands carried out: all that were taken but the one in hand. */
  function CarriedOut(s: State): seq<Command> {
    if HeldByWorker(s.worker) != [] && s.fetched != [] then s.fetched[..|s.fetched| - 1] else s.fetched
  }

  ghost predicate Answered(s: State) {
    && s.slave.posted == Answers(CarriedOut(s))
    && (HeldByWorker(s.worker) != [] ==>
          s.fetched != [] && HeldByWorker(s.worker) == [s.fetched[|s.fetched| - 1]])
  }

  lemma PopAnswered(s: State)
    requires Answered(s) && s.worker == WPop && NoNoops(s)
    ensures Answered(WorkerStep(s))
  {
    if s.slave.stack != [] {
      var c := s.slave.stack[|s.slave.stack| - 1];
      assert c in s.slave.stack;
      TakenAnswered(s, WorkerStep(s), c);
    }
  }

  /** The command in hand does not count yet. */
  lemma TakenAnswered(s: State, r: State, c: Command)
    requires Answered(s) && HeldByWorker(s.worker) == [] && c != Noop
    requires r.fetched == s.fetched + [c] && r.worker == WUnlock(c) && r.slave.posted == s.slave.posted
    ensures Answered(r)
  {
    assert r.fetched[..|r.fetched| - 1] == s.fetched && r.fetched[|r.fetched| - 1] == c;
  }

  lemma DoAnswered(s: State, c: Command)
    requires Answered(s) && s.worker == WDo(c)
    ensures Answered(WorkerStep(s))
  {
    if c != Noop {
      assert Answers(s.fetched) == Answers(s.fetched[..|s.fetched| - 1]) + Answer(c);
      PostsAnswer(s.slave, c);
    }
  }

  lemma PostsAnswer(sl: Shared, c: Command)
    ensures Execute(sl, c).posted == sl.posted + Answer(c)
  {
    Sequences.EmptyLast(sl.posted);
  }

  /** Nobody gives a Noop; fetching makes one up. */
  ghost predicate NoNoops(s: State) {
    (forall c <- s.slave.stack :: c != Noop) && (forall c <- HeldByGui(s.gui) :: c != Noop)
  }

  ghost predicate Proper(steps: seq<Step>) {
    forall i | 0 <= i < |steps| :: steps[i].Call? ==> steps[i].cmd != Noop
  }

  lemma NextAnswered(s: State, step: Step)
    requires Answered(s) && NoNoops(s) && (step.Call? ==> step.cmd != Noop)
    ensures Answered(Next(s, step))
  {
    match step
    case WorkerMoves =>
      match s.worker {
        case WPop => PopAnswered(s);
        case WDo(c) => DoAnswered(s, c);
        case _ => OthersAnswered(s);
      }
    case GuiMoves => GuiAnswered(s);
    case _ =>
  }

  lemma OthersAnswered(s: State)
    requires Answered(s) && s.worker != WPop && !s.worker.WDo?
    ensures Answered(WorkerStep(s))
  {
    assert WorkerStep(s).slave.posted == s.slave.posted;
    TakesNothing(s);
  }

  lemma GuiAnswered(s: State)
    requires Answered(s)
    ensures Answered(GuiStep(s))
  {
    assert GuiStep(s).slave.posted == s.slave.posted;
    GuiFetchesNothing(s);
  }

  /** The worker puts nothing on the stack. */
  lemma StackFromBelow(s: State)
    ensures var r := WorkerStep(s); r.slave.stack <= s.slave.stack && r.gui == s.gui
  {
    if s.worker.WDo? {
      ExecuteFailsIff(s.slave, s.worker.cmd);
    }
  }

  lemma NextNoNoops(s: State, step: Step)
    requires NoNoops(s) && (step.Call? ==> step.cmd != Noop)
    ensures NoNoops(Next(s, step))
  {
    match step
    case WorkerMoves =>
      StackFromBelow(s);
      assert forall c <- WorkerStep(s).slave.stack :: c in s.slave.stack;
    case GuiMoves =>
      match s.gui {
        case GPush(c) => assert c in HeldByGui(s.gui);
        case GStart(c) => assert c in HeldByGui(s.gui);
        case GLock(c) => assert c in HeldByGui(s.gui);
        case _ =>
      }
    case Call(c) =>
    case _ =>
  }

  /** In every interleaving the messages posted are the answers to the commands
      carried out, in that order. */
  lemma {:induction false} RepliesInOrder(steps: seq<Step>)
    requires Proper(steps)
    ensures NoNoops(SlaveQueue.Run(steps)) && Answered(SlaveQueue.Run(steps))
  {
    if steps != [] {
      var init, last := steps[..|steps| - 1], steps[|steps| - 1];
      assert forall i | 0 <= i < |init| :: init[i] == steps[i];
      RepliesInOrder(init);
      NextNoNoops(SlaveQueue.Run(init), last);
      NextAnswered(SlaveQueue.Run(init), last);
    }
  }

  /** Behind a Remove or a Kill the worker ends without a job; behind any other
      command of a caller it goes on. */
  lemma WorkerEndsIff(s: State, c: Command)
    requires s.worker == WDo(c) && c != Noop
    ensures var r := WorkerStep(s);
            && (r.worker == WOff <==> c == Command.Remove || c == Kill)
            && (r.worker == WOff ==> !r.slave.copyjob)
  {
    ExecuteFailsIff(s.slave, c);
  }

  // ----- requests of the user

  /** The slot a message leads to. */
  function ReportFor(m: Message): Report {
    match m
    case Resumed => IsResumed
    case Paused => IsPaused
    case Removed => IsRemoved
    case ToSchedule => IsScheduled
    case ToDelay => IsDelayed
  }

  /** What the user asks the slave of a running transfer for. */
  function Requested(e: Event): Command {
    match e
    case UserPause(_) => Pause
    case UserDelay(_) => Command.Delay
    case UserSchedule(_) => Schedule
    case _ => Command.Remove
  }

  lemma RunningStays(cfg: Settings, m: Main, i: nat)
    requires i < |m.items| && m.items[i].status == Running
    ensures |CheckQueue(cfg, m).items| == |m.items| && CheckQueue(cfg, m).items[i] == m.items[i]
    ensures CheckQueue(cfg, m).now == m.now
  {
  }

  /** The request goes to the slave, and the transfer runs on. */
  lemma RequestGiven(cfg: Settings, m: Main, e: Event, i: nat)
    requires i < |m.items| && m.items[i].status == Running && Allowed(m, e)
    requires e in {UserPause(i), UserDelay(i), UserSchedule(i), UserRemove(i)}
    ensures var r, it := Scheduler.Step(cfg, m, e), m.items[i];
            && |r.items| == |m.items| && r.now == m.now && r.items[i].status == Running
            && r.items[i].issued == it.issued + [Requested(e)]
            && (e.UserSchedule? ==> r.items[i].startTime == if it.startTime < m.now then m.now + 60 else it.startTime)
  {
    if e.UserRemove? {
      RunningStays(cfg, m.(items := m.items[i := Op(m.items[i], Command.Remove)]), i);
    }
  }

  /** Once the slave has carried a request out, its answer makes the transfer
      what the user asked for: delayed, ... */
  lemma DelayTakesEffect(cfg: Settings, m: Main, c: Command, i: nat)
    requires i < |m.items| && m.items[i].status == Running && c in {Pause, Command.Delay}
    ensures |Answer(c)| == 1
    ensures var r := Scheduler.Step(cfg, m, Slave(i, ReportFor(Answer(c)[0])));
            i < |r.items| && r.items[i] == m.items[i].(status := Stopped, mode := Delayed)
            && SchedulerStarts.Parked(r.items[i], r.now)
  {
    SchedulerStarts.QueueLeaves(cfg, m.(items := m.items[i := ExecDelay(m.items[i])]), i);
  }

  /** ... scheduled, ... */
  lemma ScheduleTakesEffect(cfg: Settings, m: Main, i: nat)
    requires i < |m.items| && m.items[i].status == Running && m.now < m.items[i].startTime
    ensures |Answer(Schedule)| == 1
    ensures var r := Scheduler.Step(cfg, m, Slave(i, ReportFor(Answer(Schedule)[0])));
            i < |r.items| && r.items[i] == m.items[i].(status := Stopped, mode := Scheduled)
            && SchedulerStarts.Parked(r.items[i], r.now)
  {
    SchedulerStarts.QueueLeaves(cfg, m.(items := m.items[i := ExecSchedule(m.items[i])]), i);
  }

  /** ... or gone. */
  lemma RemoveTakesEffect(cfg: Settings, m: Main, i: nat)
    requires i < |m.items|
    ensures |Answer(Command.Remove)| == 1
    ensures var r := Scheduler.Step(cfg, m, Slave(i, ReportFor(Answer(Command.Remove)[0])));
            r == m.(items := m.items[..i] + m.items[i + 1..])
  {
  }
}
