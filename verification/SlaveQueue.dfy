/** The command queue between kget's main thread and the thread of a slave
    (kget/slave.cpp): every interleaving of `Op` with the worker's `run`, one
    step per access to a shared variable. */
module SlaveQueue {
  import opened Scheduler
  import Sequences

  datatype Owner = Free | Gui | Worker

  /** Where the main thread is in `Op`. */
  datatype GuiPc =
    | GIdle | GStart(cmd: Command) | GLock(cmd: Command) | GPush(cmd: Command) | GCount | GWake | GUnlock

  /** Where the worker is in `run` and `fetch_cmd`. */
  datatype WorkerPc =
    | WOff | WTest | WWait | WAsleep | WFetch | WLook | WPop | WUnlock(cmd: Command) | WDo(cmd: Command)

  datatype Message = Resumed | Paused | Removed | ToSchedule | ToDelay

  /** The shared variables; `failed` tells that an assertion did not hold. */
  datatype Shared = Shared(stack: seq<Command>, pending: int, copyjob: bool, posted: seq<Message>, failed: bool)

  /** `pushed` and `fetched` record what went through the stack.  `missed`: a
      wake-up came between the worker's test and its wait.  `spurious`: the wait
      ended without a wake-up. */
  datatype State = State(
    gui: GuiPc, worker: WorkerPc, mutex: Owner, slave: Shared,
    pushed: seq<Command>, fetched: seq<Command>, missed: bool, spurious: bool)

  // ----- executing a command

  predicate EndsWorker(c: Command) {
    c == Kill || c == Remove || c == Noop
  }

  function Post(sl: Shared, m: Message): Shared {
    sl.(posted := sl.posted + [m])
  }

  function StartJob(sl: Shared): Shared {
    sl.(copyjob := true, failed := sl.failed || sl.copyjob)
  }

  function Execute(sl: Shared, c: Command): Shared {
    var idle := sl.(copyjob := false);
    match c
    case Restart => Post(StartJob(idle), Resumed)
    case Retr => Post(StartJob(sl), Resumed)
    case RetrCache => StartJob(sl)
    case Pause => Post(idle, Paused)
    case Kill => idle
    case Remove => Post(idle, Removed)
    case Schedule => Post(idle, ToSchedule)
    case Delay => Post(idle, ToDelay)
    case Noop => idle
    case Abort => sl.(failed := true)
  }

  // ----- the steps

  function GuiStep(s: State): State {
    match s.gui
    case GIdle => s
    case GStart(c) => s.(gui := GLock(c), worker := if s.worker == WOff then WTest else s.worker)
    case GLock(c) => if s.mutex == Free then s.(gui := GPush(c), mutex := Gui) else s
    case GPush(c) =>
      s.(gui := GCount, slave := s.slave.(stack := s.slave.stack + [c]), pushed := s.pushed + [c])
    case GCount => s.(gui := GWake, slave := s.slave.(pending := s.slave.pending + 1))
    case GWake =>
      s.(gui := GUnlock, worker := if s.worker == WAsleep then WFetch else s.worker,
         missed := s.missed || s.worker == WWait)
    case GUnlock => s.(gui := GIdle, mutex := Free)
  }

  function WorkerStep(s: State): State {
    match s.worker
    case WOff => s
    case WTest =>
      s.(worker := if s.slave.pending == 0 then WWait else WFetch, missed := false, spurious := false)
    case WWait => s.(worker := WAsleep)
    case WAsleep => s
    case WFetch => if s.mutex == Free then s.(worker := WLook, mutex := Worker) else s
    case WLook =>
      if s.slave.stack == [] then s.(worker := WUnlock(Noop))
      else s.(worker := WPop, slave := s.slave.(pending := s.slave.pending - 1))
    case WPop =>
      if s.slave.stack == [] then s
      else
        var n := |s.slave.stack| - 1;
        var c := s.slave.stack[n];
        s.(worker := WUnlock(c), slave := s.slave.(stack := s.slave.stack[..n]), fetched := s.fetched + [c])
    case WUnlock(c) => s.(worker := WDo(c), mutex := Free)
    case WDo(c) => s.(worker := if EndsWorker(c) then WOff else WTest, slave := Execute(s.slave, c))
  }

  /** One step of either thread; a thread that cannot move stays where it is. */
  datatype Step = Call(cmd: Command) | GuiMoves | WorkerMoves | WakesByItself | JobEnds

  function Next(s: State, step: Step): State {
    match step
    case Call(c) => if s.gui == GIdle then s.(gui := GStart(c)) else s
    case GuiMoves => GuiStep(s)
    case WorkerMoves => WorkerStep(s)
    case WakesByItself => if s.worker == WAsleep then s.(worker := WFetch, spurious := true) else s
    case JobEnds => s.(slave := s.slave.(copyjob := false))
  }

  function Start(): State {
    State(GIdle, WOff, Free, Shared([], 0, false, [], false), [], [], false, false)
  }

  function Run(steps: seq<Step>): State {
    if steps == [] then Start() else Next(Run(steps[..|steps| - 1]), steps[|steps| - 1])
  }

  // ----- what every interleaving keeps

  predicate GuiHolds(pc: GuiPc) {
    pc.GPush? || pc == GCount || pc == GWake || pc == GUnlock
  }

  predicate WorkerHolds(pc: WorkerPc) {
    pc == WLook || pc == WPop || pc.WUnlock?
  }

  /** Commands on the stack that `nPendingCommand` does not count at the moment. */
  function Uncounted(s: State): nat {
    (if s.gui == GCount then 1 else 0) + (if s.worker == WPop then 1 else 0)
  }

  ghost predicate Locked(s: State) {
    (s.mutex == Gui <==> GuiHolds(s.gui)) && (s.mutex == Worker <==> WorkerHolds(s.worker))
  }

  ghost predicate Counted(s: State) {
    s.slave.pending == |s.slave.stack| - Uncounted(s) && s.slave.pending >= 0
  }

  ghost predicate Conserved(s: State) {
    multiset(s.pushed) == multiset(s.fetched) + multiset(s.slave.stack)
  }

  /** While the worker is about to wait or asleep, the stack is empty unless the
      main thread is still in the middle of `Op` or its wake-up was missed; and
      the worker goes to fetch a command only if there is one. */
  ghost predicate Waits(s: State) {
    && (s.worker == WWait || s.worker == WAsleep ==>
          (s.slave.stack != [] <==> s.missed || s.gui == GCount || s.gui == GWake))
    && (s.worker == WFetch || s.worker == WLook ==> s.slave.stack != [] || s.spurious)
    && (s.worker == WPop || s.gui == GCount || s.gui == GWake ==> s.slave.stack != [])
  }

  ghost predicate EndsClean(s: State) {
    s.worker == WOff ==> !s.slave.copyjob
  }

  ghost predicate Inv(s: State) {
    Locked(s) && Counted(s) && Conserved(s) && Waits(s) && EndsClean(s)
  }

  lemma GuiConserves(s: State)
    requires Conserved(s)
    ensures Conserved(GuiStep(s))
  {
    if s.gui.GPush? {
      assert multiset(s.pushed + [s.gui.cmd]) == multiset(s.pushed) + multiset{s.gui.cmd};
      assert multiset(s.slave.stack + [s.gui.cmd]) == multiset(s.slave.stack) + multiset{s.gui.cmd};
    }
  }

  lemma WorkerConserves(s: State)
    requires Conserved(s)
    ensures Conserved(WorkerStep(s))
  {
    if s.worker == WPop && s.slave.stack != [] {
      var n := |s.slave.stack| - 1;
      assert s.slave.stack == s.slave.stack[..n] + [s.slave.stack[n]];
      assert multiset(s.slave.stack) == multiset(s.slave.stack[..n]) + multiset{s.slave.stack[n]};
      assert multiset(s.fetched + [s.slave.stack[n]]) == multiset(s.fetched) + multiset{s.slave.stack[n]};
    }
  }

  ghost predicate InvButConserved(s: State) {
    Locked(s) && Counted(s) && Waits(s) && EndsClean(s)
  }

  lemma GuiKeeps(s: State)
    requires InvButConserved(s)
    ensures InvButConserved(GuiStep(s))
  {
    var r := GuiStep(s);
    assert Locked(r) && Counted(r);
    assert Waits(r);
  }

  lemma WorkerKeeps(s: State)
    requires InvButConserved(s)
    ensures InvButConserved(WorkerStep(s))
  {
    var r := WorkerStep(s);
    assert s.worker.WDo? ==> r.slave.stack == s.slave.stack && r.slave.pending == s.slave.pending;
    assert Locked(r) && Counted(r);
    assert Waits(r);
  }

  lemma NextKeeps(s: State, step: Step)
    requires Inv(s)
    ensures Inv(Next(s, step))
  {
    match step
    case GuiMoves => GuiKeeps(s); GuiConserves(s);
    case WorkerMoves => WorkerKeeps(s); WorkerConserves(s);
    case _ =>
  }

  lemma {:induction false} RunKeeps(steps: seq<Step>)
    ensures Inv(Run(steps))
  {
    if steps != [] {
      RunKeeps(steps[..|steps| - 1]);
      NextKeeps(Run(steps[..|steps| - 1]), steps[|steps| - 1]);
    }
  }

  /** The main result on the shared variables. */
  lemma QueueIsSafe(steps: seq<Step>)
    ensures var s := Run(steps);
            && (s.mutex == Free ==> s.slave.pending == |s.slave.stack|)
            && !(GuiHolds(s.gui) && WorkerHolds(s.worker))
            && multiset(s.pushed) == multiset(s.fetched) + multiset(s.slave.stack)
            && (s.worker == WOff ==> !s.slave.copyjob)
  {
    RunKeeps(steps);
  }

  /** A worker asleep with commands waiting and nobody about to wake it: this
      happens exactly if the last wake-up came between its test and its wait. */
  lemma SleepsOnWorkIff(steps: seq<Step>)
    ensures var s := Run(steps);
            s.worker == WAsleep && s.mutex == Free ==> (s.slave.stack != [] <==> s.missed)
  {
    RunKeeps(steps);
  }

  /** Without spurious wake-ups the worker never ends for want of commands. */
  lemma NeverFetchesNothing(steps: seq<Step>)
    requires var s := Run(steps); s.worker == WLook && !s.spurious
    ensures var s := Next(Run(steps), WorkerMoves);
            s.worker == WPop && s.slave.stack != [] && s.slave.pending >= 0
  {
    RunKeeps(steps);
  }

  // ----- order

  /** What has been fetched and what waits, bottom first, are the commands in
      the order they were given. */
  ghost predicate InOrder(s: State) {
    s.pushed == s.fetched + s.slave.stack
  }

  lemma OthersKeepOrder(s: State, step: Step)
    requires InOrder(s) && !(step.WorkerMoves? && s.worker == WPop)
    ensures InOrder(Next(s, step))
  {
    if step.GuiMoves? && s.gui.GPush? {
      Sequences.Assoc(s.fetched, s.slave.stack, [s.gui.cmd]);
    }
  }

  /** Taking a command keeps the order iff all that wait are the same. */
  lemma PopKeepsOrderIff(s: State)
    requires InOrder(s) && s.worker == WPop && s.slave.stack != []
    ensures InOrder(Next(s, WorkerMoves)) <==> forall c <- s.slave.stack :: c == s.slave.stack[0]
  {
    var a, n := s.slave.stack, |s.slave.stack| - 1;
    var r := Next(s, WorkerMoves);
    Sequences.Assoc(s.fetched, [a[n]], a[..n]);
    assert InOrder(r) <==> s.fetched + a == s.fetched + ([a[n]] + a[..n]);
    SameRest(s.fetched, a, [a[n]] + a[..n]);
    RotatedIff(a);
  }

  lemma SameRest<T>(p: seq<T>, a: seq<T>, b: seq<T>)
    ensures p + a == p + b <==> a == b
  {
    assert (p + a)[|p|..] == a && (p + b)[|p|..] == b;
  }

  /** A list is its own rotation iff it is constant. */
  lemma RotatedIff<T>(a: seq<T>)
    requires a != []
    ensures a == [a[|a| - 1]] + a[..|a| - 1] <==> forall c <- a :: c == a[0]
  {
    var r := [a[|a| - 1]] + a[..|a| - 1];
    if a == r {
      forall k | 0 <= k < |a| ensures a[k] == a[0] {
        Shifted(a, k);
      }
    } else if forall c <- a :: c == a[0] {
      forall k | 0 <= k < |a| ensures a[k] == r[k] {
        assert a[k] in a && r[k] in a;
      }
    }
  }

  lemma {:induction false} Shifted<T>(a: seq<T>, k: nat)
    requires k < |a| && a == [a[|a| - 1]] + a[..|a| - 1]
    ensures a[k] == a[0]
  {
    if k > 0 {
      Shifted(a, k - 1);
      assert ([a[|a| - 1]] + a[..|a| - 1])[k] == a[k - 1];
    }
  }

  ghost predicate AlwaysInOrder(steps: seq<Step>) {
    InOrder(Run(steps)) && (steps == [] || AlwaysInOrder(steps[..|steps| - 1]))
  }

  /** Whenever a command is taken, all that wait are the same.  What a caller
      has to do for that is `SlaveClash.WaitingIsSafe`. */
  ghost predicate UniformPops(steps: seq<Step>) {
    steps == []
    || (UniformPops(steps[..|steps| - 1])
        && var s := Run(steps[..|steps| - 1]);
           (steps[|steps| - 1].WorkerMoves? && s.worker == WPop ==> forall c <- s.slave.stack :: c == s.slave.stack[0]))
  }

  /** Commands are carried out in the order given all through a run exactly if
      the worker never takes one while a different one waits with it. */
  lemma {:induction false} InOrderIff(steps: seq<Step>)
    ensures AlwaysInOrder(steps) <==> UniformPops(steps)
  {
    if steps != [] {
      var init, last := steps[..|steps| - 1], steps[|steps| - 1];
      InOrderIff(init);
      if AlwaysInOrder(init) {
        RunKeeps(init);
        if last.WorkerMoves? && Run(init).worker == WPop {
          PopKeepsOrderIff(Run(init));
        } else {
          OthersKeepOrder(Run(init), last);
        }
      }
    }
  }

  // ----- calls that run undisturbed

  function OpMoves(s: State, c: Command): State {
    GuiStep(GuiStep(GuiStep(GuiStep(GuiStep(GuiStep(Next(s, Call(c))))))))
  }

  function Pushed(sl: Shared, c: Command): Shared {
    sl.(stack := sl.stack + [c], pending := sl.pending + 1)
  }

  /** `Op` undisturbed: one command more on the stack, and the worker started or
      woken. */
  lemma OpAlone(s: State, c: Command)
    requires s.gui == GIdle && s.mutex == Free
    ensures var r := OpMoves(s, c);
            && r.gui == GIdle && r.mutex == Free && r.slave == Pushed(s.slave, c) && r.pushed == s.pushed + [c]
            && r.worker == match s.worker { case WOff => WTest case WAsleep => WFetch case w => w }
  {
    var s1 := GuiStep(Next(s, Call(c)));
    assert s1.gui == GLock(c);
    var s2 := GuiStep(s1);
    assert s2.gui == GPush(c);
  }

  function FetchMoves(s: State): State {
    WorkerStep(WorkerStep(WorkerStep(WorkerStep(s))))
  }

  function Popped(sl: Shared): Shared
    requires sl.stack != []
  {
    sl.(stack := sl.stack[..|sl.stack| - 1], pending := sl.pending - 1)
  }

  /** `fetch_cmd` undisturbed takes the command pushed last. */
  lemma FetchAlone(s: State)
    requires s.worker == WFetch && s.mutex == Free && s.slave.stack != []
    ensures var r := FetchMoves(s);
            && r.worker == WDo(s.slave.stack[|s.slave.stack| - 1]) && r.mutex == Free
            && r.slave == Popped(s.slave) && r.gui == s.gui
  {
    var s2 := WorkerStep(WorkerStep(s));
    assert s2.worker == WPop;
  }

  // ----- what goes wrong

  /** Two commands given before the worker looks are carried out in the reverse
      order: a Kill overtakes the Retr before it, the worker ends, and the Retr
      stays behind on the stack. */
  lemma KillOvertakes()
    ensures var s := OpMoves(OpMoves(Start(), Retr), Kill);
            var r := WorkerStep(FetchMoves(WorkerStep(s)));
            r.worker == WOff && r.slave.stack == [Retr] && r.slave.posted == []
  {
    OpAlone(Start(), Retr);
    OpAlone(OpMoves(Start(), Retr), Kill);
    KillFirst(OpMoves(OpMoves(Start(), Retr), Kill));
  }

  lemma KillFirst(s: State)
    requires s.worker == WTest && s.mutex == Free && s.slave.stack == [Retr, Kill] && s.slave.pending == 2
    ensures var r := WorkerStep(FetchMoves(WorkerStep(s)));
            r.worker == WOff && r.slave.stack == [Retr] && r.slave.posted == s.slave.posted
  {
    FetchAlone(WorkerStep(s));
    assert [Retr, Kill][..1] == [Retr];
  }

  /** A run in which the wake-up is missed: the worker sleeps on a command. */
  lemma WakeUpMissed(c: Command)
    ensures var off := GuiStep(Next(Start(), Call(c)));
            var tested := WorkerStep(off);
            var s := WorkerStep(GuiStep(GuiStep(GuiStep(GuiStep(GuiStep(tested))))));
            s.worker == WAsleep && s.mutex == Free && s.gui == GIdle && s.slave.stack == [c]
  {
    var tested := WorkerStep(GuiStep(Next(Start(), Call(c))));
    assert tested.worker == WWait && tested.gui == GLock(c);
    var s := GuiStep(GuiStep(GuiStep(tested)));
    assert s.gui == GWake && s.worker == WWait;
  }

  // ----- the object

  class SlaveThread {
    var stack: seq<Command>
    var nPendingCommand: int
    var copyjob: bool
    var posted: seq<Message>

    constructor ()
      ensures Abs() == Start().slave
    {
      stack, nPendingCommand, copyjob, posted := [], 0, false, [];
    }

    ghost function Abs(): Shared
      reads this
    {
      Shared(stack, nPendingCommand, copyjob, posted, false)
    }

    method Op(c: Command)
      modifies this
      ensures Abs() == Pushed(old(Abs()), c)
    {
      stack := stack + [c];
      nPendingCommand := nPendingCommand + 1;
    }

    method FetchCmd() returns (c: Command)
      modifies this
      ensures old(stack) == [] ==> c == Noop && Abs() == old(Abs())
      ensures old(stack) != [] ==> c == old(stack)[|old(stack)| - 1] && Abs() == Popped(old(Abs()))
    {
      c := Noop;
      if stack != [] {
        nPendingCommand := nPendingCommand - 1;
        c := stack[|stack| - 1];
        stack := stack[..|stack| - 1];
      }
    }

    method DropJob()
      modifies this`copyjob
      ensures !copyjob
    {
      if copyjob {
        copyjob := false;
      }
    }

    method PostMessage(m: Message)
      modifies this`posted
      ensures posted == old(posted) + [m]
    {
      posted := posted + [m];
    }

    /** One command of the switch in `run`; its assertions are the
        precondition. */
    method Perform(c: Command) returns (running: bool)
      requires c != Abort && (c == Retr || c == RetrCache ==> !copyjob)
      modifies this
      ensures Abs() == Execute(old(Abs()), c) && running == !EndsWorker(c)
      ensures !running ==> !copyjob
    {
      running := !EndsWorker(c);
      if c != Retr && c != RetrCache {
        DropJob();
      }
      match c
      case Restart => copyjob := true; PostMessage(Resumed);
      case Retr => copyjob := true; PostMessage(Resumed);
      case RetrCache => copyjob := true;
      case Pause => PostMessage(Paused);
      case Remove => PostMessage(Removed);
      case Schedule => PostMessage(ToSchedule);
      case Delay => PostMessage(ToDelay);
      case Kill =>
      case Noop =>
    }
  }
}
