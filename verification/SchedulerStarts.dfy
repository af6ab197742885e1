/** When kget's scheduler starts a transfer, and when it leaves one alone
    (kget/kmainwidget.cpp, kget/transfer.cpp): start times, retries, parked
    transfers and being offline. */
module SchedulerStarts {
  import opened Scheduler
  import opened SchedulerLimit
  import opened Sequences

  // ----- the clock

  /** The clock leaves a scheduled transfer alone before its start time, and none
      scheduled from then on; what is due starts, unless kget is offline or the
      limit is reached. */
  lemma ClockStartsDue(cfg: Settings, m: Main, t: int, i: nat)
    requires i < |m.items| && m.items[i].mode == Scheduled
    ensures var r, it := Step(cfg, m, Clock(t)), m.items[i];
            && |r.items| == |m.items| && r.now == t
            && (t < it.startTime ==> r.items[i] == it)
            && (it.startTime <= t ==>
                  && r.items[i].mode == Queued
                  && (Active(r.items[i]) || m.Offline() || ActiveCount(r.items) >= cfg.limit))
  {
    var due := QueueDue(m.items, t);
    if m.items[i].startTime <= t {
      assert Due(m.items[i], t) && AnyDue(m.items, t);
      if !m.Offline() {
        QueueExhausted(cfg, due);
        CheckNewActive(StartQueued(cfg, due), cfg);
        var started := StartQueued(cfg, due);
        assert Eligible(started[i]) || Active(started[i]);
      }
    }
  }

  lemma {:induction false} CheckNewActive(items: seq<Item>, cfg: Settings)
    ensures ActiveCount(CheckNew(cfg, items)) >= ActiveCount(items)
  {
    if items != [] {
      var init := items[..|items| - 1];
      CheckNewActive(init, cfg);
      assert CheckNew(cfg, items)[..|items| - 1] == CheckNew(cfg, init);
    }
  }

  // ----- a transfer in the changing list

  /** The event is about the transfer at `i`. */
  predicate Concerns(e: Event, i: nat) {
    match e
    case Slave(k, _) => k == i
    case UserPause(k) => k == i
    case UserQueue(k) => k == i
    case UserSchedule(k) => k == i
    case UserDelay(k) => k == i
    case UserRemove(k) => k == i
    case _ => false
  }

  /** Does the event take the transfer at `k` off the list? */
  predicate TakesOff(cfg: Settings, m: Main, e: Event, k: nat)
    requires k < |m.items|
  {
    match e
    case Slave(n, IsRemoved) => n == k
    case Slave(n, JobFinished) => n == k && cfg.removeOnSuccess
    case UserRemove(n) => n == k && m.items[k].status != Running
    case _ => false
  }

  /** Where the transfer at `i` is after an event that does not concern it. */
  function Moved(cfg: Settings, m: Main, e: Event, i: nat): nat
    requires i < |m.items|
  {
    if exists k | 0 <= k < i :: TakesOff(cfg, m, e, k) then i - 1 else i
  }

  function Where(cfg: Settings, m: Main, events: seq<Event>, i: nat): nat
    requires i < |m.items|
  {
    if events == [] then i
    else
      var before := Run(cfg, m, events[..|events| - 1]);
      var j := Where(cfg, m, events[..|events| - 1], i);
      if j < |before.items| then Moved(cfg, before, events[|events| - 1], j) else j
  }

  // ----- parked transfers

  /** Not waiting to be started at the time `now`. */
  predicate Parked(it: Item, now: int) {
    !Active(it) && (it.mode == Delayed || it.mode == NoMode || (it.mode == Scheduled && now < it.startTime))
  }

  /** What the scheduler does to a list does not touch a parked transfer. */
  lemma QueueLeaves(cfg: Settings, m: Main, i: nat)
    requires i < |m.items| && Parked(m.items[i], m.now)
    ensures |CheckQueue(cfg, m).items| == |m.items| == |TransferTimeout(cfg, m).items|
    ensures CheckQueue(cfg, m).items[i] == m.items[i] == TransferTimeout(cfg, m).items[i]
    ensures CheckQueue(cfg, m).now == m.now == TransferTimeout(cfg, m).now
  {
  }

  lemma StopLeaves(items: seq<Item>, i: nat)
    requires i < |items| && !Active(items[i])
    ensures StopAll(items)[i] == items[i]
  {
  }

  /** No event about something else touches a parked transfer. */
  lemma ParkedStep(cfg: Settings, m: Main, e: Event, i: nat)
    requires i < |m.items| && Parked(m.items[i], m.now) && !Concerns(e, i)
    requires e.Clock? ==> Parked(m.items[i], e.now)
    ensures var r, j := Step(cfg, m, e), Moved(cfg, m, e, i);
            j < |r.items| && r.items[j] == m.items[i] && r.now == if e.Clock? then e.now else m.now
  {
    match e
    case Add(http) => QueueLeaves(cfg, m.(items := m.items + [NewItem(http, m.now)]), i);
    case Clock(now) => QueueLeaves(cfg, m.(now := now), i);
    case Toggle => ParkedSwitch(cfg, m.(offlineMode := !m.offlineMode), i);
    case Connection(up) => ParkedSwitch(cfg, m.(connected := up), i);
    case Slave(k, report) =>
      if k < |m.items| {
        ParkedReport(cfg, m, k, report, i);
      }
    case _ => ParkedUser(cfg, m, e, i);
  }

  lemma ParkedSwitch(cfg: Settings, m: Main, i: nat)
    requires i < |m.items| && Parked(m.items[i], m.now)
    ensures var stopped := m.(items := StopAll(m.items));
            && stopped.items[i] == m.items[i]
            && CheckQueue(cfg, m).items[i] == CheckQueue(cfg, stopped).items[i] == m.items[i]
            && CheckQueue(cfg, m).now == CheckQueue(cfg, stopped).now == m.now
  {
    StopLeaves(m.items, i);
    QueueLeaves(cfg, m, i);
    QueueLeaves(cfg, m.(items := StopAll(m.items)), i);
  }

  lemma Deleted(m: Main, k: nat, i: nat)
    requires k < |m.items| && i < |m.items| && k != i
    ensures var j := if k < i then i - 1 else i;
            j < |Delete(m, k).items| && Delete(m, k).items[j] == m.items[i] && Delete(m, k).now == m.now
  {
  }

  lemma MovedIs(cfg: Settings, m: Main, e: Event, i: nat, k: nat)
    requires i < |m.items| && k < |m.items| && k != i
    requires forall n: nat | n < |m.items| && TakesOff(cfg, m, e, n) :: n == k
    ensures Moved(cfg, m, e, i) == if k < i && TakesOff(cfg, m, e, k) then i - 1 else i
  {
  }

  lemma ParkedReport(cfg: Settings, m: Main, k: nat, report: Report, i: nat)
    requires k < |m.items| && i < |m.items| && k != i && Parked(m.items[i], m.now)
    ensures var r, j := OnReport(cfg, m, k, report), Moved(cfg, m, Slave(k, report), i);
            j < |r.items| && r.items[j] == m.items[i] && r.now == m.now
  {
    MovedIs(cfg, m, Slave(k, report), i, k);
    var it := m.items[k];
    match report
    case JobFinished =>
      Deleted(m, k, i);
      QueueLeaves(cfg, Delete(m, k), if k < i then i - 1 else i);
      QueueLeaves(cfg, m.(items := m.items[k := Done(it)]), i);
    case IsRemoved => Deleted(m, k, i);
    case JobFailed(e) => QueueLeaves(cfg, m.(items := m.items[k := AfterFailure(cfg, it, e, m.now)]), i);
    case IsConnected => QueueLeaves(cfg, m.(items := m.items[k := ExecConnected(cfg, it, m.Offline())]), i);
    case IsResumed => QueueLeaves(cfg, m, i);
    case IsScheduled => QueueLeaves(cfg, m.(items := m.items[k := ExecSchedule(it)]), i);
    case _ => QueueLeaves(cfg, m.(items := m.items[k := ExecDelay(it)]), i);
  }

  lemma ParkedUser(cfg: Settings, m: Main, e: Event, i: nat)
    requires i < |m.items| && Parked(m.items[i], m.now) && !Concerns(e, i)
    requires e.UserPause? || e.UserQueue? || e.UserSchedule? || e.UserDelay? || e.UserRemove?
    ensures var r, j := OnUser(cfg, m, e), Moved(cfg, m, e, i);
            j < |r.items| && r.items[j] == m.items[i] && r.now == m.now
  {
    if e.i < |m.items| {
      MovedIs(cfg, m, e, i, e.i);
      var it := m.items[e.i];
      match e
      case UserPause(k) =>
      case UserQueue(k) => QueueLeaves(cfg, m.(items := m.items[k := Queue(it)]), i);
      case UserSchedule(k) => QueueLeaves(cfg, m.(items := m.items[k := RequestSchedule(it, m.now)]), i);
      case UserDelay(k) => QueueLeaves(cfg, m.(items := m.items[k := RequestDelay(it)]), i);
      case UserRemove(k) =>
        QueueLeaves(cfg, m.(items := m.items[k := Op(it, Command.Remove)]), i);
        Deleted(m, k, i);
        QueueLeaves(cfg, Delete(m, k), if k < i then i - 1 else i);
    }
  }

  /** Nothing in the run is about the transfer, and the clock has not reached its
      start time. */
  ghost predicate LeftAlone(cfg: Settings, m: Main, events: seq<Event>, i: nat)
    requires i < |m.items|
  {
    events == []
    || (var e := events[|events| - 1];
        && LeftAlone(cfg, m, events[..|events| - 1], i)
        && !Concerns(e, Where(cfg, m, events[..|events| - 1], i))
        && (e.Clock? ==> Parked(m.items[i], e.now)))
  }

  /** In every run a delayed or finished transfer, or one scheduled for a time the
      clock has not reached, stays as it is and is given no command, until the
      user or its own job does something about it. */
  lemma {:induction false} ParkedStays(cfg: Settings, m: Main, events: seq<Event>, i: nat)
    requires i < |m.items| && Parked(m.items[i], m.now) && LeftAlone(cfg, m, events, i)
    ensures var r, j := Run(cfg, m, events), Where(cfg, m, events, i);
            j < |r.items| && r.items[j] == m.items[i] && Parked(m.items[i], r.now)
  {
    if events != [] {
      var init, e := events[..|events| - 1], events[|events| - 1];
      ParkedStays(cfg, m, init, i);
      ParkedStep(cfg, Run(cfg, m, init), e, Where(cfg, m, init, i));
    }
  }

  // ----- retries after a failed login

  /** A download whose login failed is tried again no sooner than the reconnect
      time, in minutes, after the failure, and is due from then on. */
  lemma RetryWaits(cfg: Settings, m: Main, events: seq<Event>, i: nat, t: int)
    requires i < |m.items| && m.items[i].mode != New && RetryOnError(cfg, m.items[i]) && cfg.reconnectTime > 0
    requires var failed := Step(cfg, m, Slave(i, JobFailed(LoginOrTimeout)));
             i < |failed.items| ==> LeftAlone(cfg, failed, events, i)
    ensures var failed := Step(cfg, m, Slave(i, JobFailed(LoginOrTimeout)));
            && i < |failed.items| && failed.items[i].issued == m.items[i].issued
            && var r, j := Run(cfg, failed, events), Where(cfg, failed, events, i);
               && j < |r.items| && r.items[j].issued == m.items[i].issued
               && (t < m.now + 60 * cfg.reconnectTime ==> Step(cfg, r, Clock(t)).items[j] == r.items[j])
               && (t >= m.now + 60 * cfg.reconnectTime ==> Step(cfg, r, Clock(t)).items[j].mode == Queued)
  {
    var failed := FailureScheduled(cfg, m, i);
    ParkedStays(cfg, failed, events, i);
    ClockStartsDue(cfg, Run(cfg, failed, events), t, Where(cfg, failed, events, i));
  }

  lemma FailureScheduled(cfg: Settings, m: Main, i: nat) returns (r: Main)
    requires i < |m.items| && m.items[i].mode != New && RetryOnError(cfg, m.items[i]) && cfg.reconnectTime > 0
    ensures r == Step(cfg, m, Slave(i, JobFailed(LoginOrTimeout))) && i < |r.items| && r.now == m.now
    ensures r.items[i] == m.items[i].(status := Stopped, mode := Scheduled, startTime := m.now + 60 * cfg.reconnectTime)
    ensures Parked(r.items[i], r.now)
  {
    r := Step(cfg, m, Slave(i, JobFailed(LoginOrTimeout)));
    var next := AfterFailure(cfg, m.items[i], LoginOrTimeout, m.now);
    QueueLeaves(cfg, m.(items := m.items[i := next]), i);
  }

  /** Scheduling a transfer that is not running: a start time that has passed
      becomes a minute from now, and nothing is started before. */
  lemma ScheduledByUser(cfg: Settings, m: Main, i: nat)
    requires i < |m.items| && m.items[i].status != Running && m.items[i].startTime != m.now
    ensures var r, it := Step(cfg, m, UserSchedule(i)), m.items[i];
            && i < |r.items| && r.items[i].mode == Scheduled && r.items[i].issued == it.issued
            && r.items[i].startTime == (if it.startTime < m.now then m.now + 60 else it.startTime)
            && Parked(r.items[i], r.now)
  {
    var next := RequestSchedule(m.items[i], m.now);
    QueueLeaves(cfg, m.(items := m.items[i := next]), i);
  }

  // ----- slots are not left empty

  /** Online, the slots are used up or nobody waits. */
  ghost predicate Full(cfg: Settings, m: Main) {
    m.Offline() || ActiveCount(m.items) >= cfg.limit || forall i | 0 <= i < |m.items| :: !Eligible(m.items[i])
  }

  lemma QueueFull(cfg: Settings, m: Main)
    ensures Full(cfg, CheckQueue(cfg, m))
  {
    if !m.Offline() {
      var started := StartQueued(cfg, m.items);
      QueueExhausted(cfg, m.items);
      CheckNewActive(started, cfg);
      if ActiveCount(started) < cfg.limit {
        assert forall i | 0 <= i < |started| :: !Eligible(started[i]) ==> CheckOne(cfg, started[i]) == started[i];
        assert CheckNew(cfg, started) == started;
      }
    }
  }

  /** The events behind which the queue is looked through. */
  predicate LooksThrough(m: Main, e: Event) {
    match e
    case Add(_) => true
    case Toggle => true
    case Connection(up) => up && !m.connected
    case Clock(now) => AnyDue(m.items, now)
    case Slave(i, JobFinished) => i < |m.items|
    case Slave(i, IsConnected) => i < |m.items| && !(m.items[i].mode == New && m.Offline())
    case Slave(i, IsResumed) => i < |m.items|
    case Slave(i, IsPaused) => i < |m.items|
    case Slave(i, IsDelayed) => i < |m.items|
    case UserQueue(i) => i < |m.items|
    case UserDelay(i) => i < |m.items| && m.items[i].status != Running
    case UserRemove(i) => i < |m.items|
    case _ => false
  }

  /** Behind each of them no slot is free that somebody waits for. */
  lemma SlotsFilled(cfg: Settings, m: Main, e: Event)
    requires LooksThrough(m, e)
    ensures Full(cfg, Step(cfg, m, e))
  {
    match e
    case Add(http) => QueueFull(cfg, m.(items := m.items + [NewItem(http, m.now)]));
    case Toggle =>
      var t := m.(offlineMode := !m.offlineMode);
      QueueFull(cfg, if t.Offline() then t.(items := StopAll(t.items)) else t);
    case Connection(up) => QueueFull(cfg, m.(connected := up));
    case Clock(now) => QueueFull(cfg, m.(now := now, items := QueueDue(m.items, now)));
    case Slave(i, JobFinished) =>
      QueueFull(cfg, Delete(m, i));
      QueueFull(cfg, m.(items := m.items[i := Done(m.items[i])]));
    case Slave(i, IsConnected) =>
      var next := ExecConnected(cfg, m.items[i], m.Offline());
      QueueFull(cfg, m.(items := m.items[i := next]));
    case Slave(i, IsResumed) => QueueFull(cfg, m);
    case Slave(i, IsPaused) => QueueFull(cfg, m.(items := m.items[i := ExecDelay(m.items[i])]));
    case Slave(i, IsDelayed) => QueueFull(cfg, m.(items := m.items[i := ExecDelay(m.items[i])]));
    case UserQueue(i) => QueueFull(cfg, m.(items := m.items[i := Queue(m.items[i])]));
    case UserDelay(i) => QueueFull(cfg, m.(items := m.items[i := RequestDelay(m.items[i])]));
    case UserRemove(i) =>
      QueueFull(cfg, m.(items := m.items[i := Op(m.items[i], Command.Remove)]));
      QueueFull(cfg, Delete(m, i));
  }

  /** Behind a failed login that is to be tried again it is not looked through: the
      slot stays free, even if somebody waits for it. */
  lemma SlotLeftFree(cfg: Settings, m: Main, i: nat)
    requires i < |m.items| && m.items[i].mode != New && RetryOnError(cfg, m.items[i]) && cfg.reconnectTime > 0
    requires !AnyDue(m.items[..i] + m.items[i + 1..], m.now)
    ensures var r := Step(cfg, m, Slave(i, JobFailed(LoginOrTimeout)));
            && r == m.(items := m.items[i := r.items[i]])
            && (Full(cfg, r) <==>
                  m.Offline() || ActiveCount(r.items) >= cfg.limit
                  || forall k | 0 <= k < |m.items| && k != i :: !Eligible(m.items[k]))
  {
    var r := FailureScheduled(cfg, m, i);
    var next := r.items[i];
    var t := m.(items := m.items[i := next]);
    assert !Due(next, m.now);
    forall k | 0 <= k < |t.items| ensures !Due(t.items[k], m.now) {
      if k != i {
        var j := if k < i then k else k - 1;
        assert (m.items[..i] + m.items[i + 1..])[j] == m.items[k];
      }
    }
    assert QueueDue(t.items, m.now) == t.items;
    assert r == t;
    assert !Eligible(next);
    assert forall k | 0 <= k < |t.items| && k != i :: t.items[k] == m.items[k];
  }

  // ----- the end of a download, and of the cache check

  /** A connection reported for a cache check while offline changes nothing. */
  lemma CheckedOffline(cfg: Settings, m: Main, i: nat)
    requires i < |m.items| && m.items[i].mode == New && m.Offline()
    ensures Step(cfg, m, Slave(i, IsConnected)) == m
  {
  }

  /** A finished transfer that is not taken off the list is left alone for good. */
  lemma FinishedStays(cfg: Settings, m: Main, events: seq<Event>, i: nat)
    requires i < |m.items| && !cfg.removeOnSuccess
    requires var r := Step(cfg, m, Slave(i, JobFinished)); i < |r.items| ==> LeftAlone(cfg, r, events, i)
    ensures var r := Step(cfg, m, Slave(i, JobFinished));
            && i < |r.items| && r.items[i] == m.items[i].(status := Finished, mode := NoMode)
            && Where(cfg, r, events, i) < |Run(cfg, r, events).items|
            && Run(cfg, r, events).items[Where(cfg, r, events, i)] == r.items[i]
  {
    QueueLeaves(cfg, m.(items := m.items[i := Done(m.items[i])]), i);
    ParkedStays(cfg, Step(cfg, m, Slave(i, JobFinished)), events, i);
  }

  /** The cache check ends with the job's error, if the page is not in the cache,
      or with its connection, and then the job is killed.  Either way the transfer
      is from then on queued or delayed as set. */
  lemma CacheCheckEnds(cfg: Settings, m: Main, i: nat, report: Report)
    requires i < |m.items| && m.items[i].mode == New
    requires report.JobFailed? || (report.IsConnected? && !m.Offline())
    ensures var r, it := Step(cfg, m, Slave(i, report)), m.items[i];
            && i < |r.items| && r.items[i].mode == (if cfg.addQueued then Queued else Delayed)
            && it.issued + (if report.IsConnected? then [Kill] else []) <= r.items[i].issued
            && (!cfg.addQueued ==> Parked(r.items[i], r.now))
            && (report.JobFailed? ==> r.items[i].issued == it.issued && r.items[i].status == Stopped)
  {
    var next := if report.IsConnected? then ExecConnected(cfg, m.items[i], false) else NotInCache(cfg, m.items[i]);
    EmptyLast(m.items[i].issued);
    if report.IsConnected? && !cfg.addQueued {
      QueueLeaves(cfg, m.(items := m.items[i := next]), i);
    }
  }

  // ----- a new transfer

  /** A new transfer takes a free slot that nobody waits for.  Otherwise the cache
      is asked for a page, and anything else is queued or delayed as set. */
  lemma AddedTransfer(cfg: Settings, m: Main, http: bool)
    ensures var r, n := Step(cfg, m, Add(http)), |m.items|;
            && |r.items| == n + 1
            && var it := r.items[n];
               if !m.Offline() && ActiveCount(m.items) + EligibleCount(m.items) < cfg.limit
               then it.status == Trying && it.mode == Queued && it.issued == [Retr]
               else if http then it.status == Trying && it.mode == New && it.issued == [RetrCache]
               else it.status == Stopped && it.issued == [] && it.mode == if cfg.addQueued then Queued else Delayed
  {
    var n, it := |m.items|, NewItem(http, m.now);
    var items := m.items + [it];
    assert items[..n] == m.items && items[..n + 1] == items;
    ActivePrefix(items, n);
  }

  // ----- offline

  function Downloads(it: Item): nat {
    Count(it.issued, Retr)
  }

  function Count(cs: seq<Command>, c: Command): nat {
    if cs == [] then 0 else Count(cs[..|cs| - 1], c) + if cs[|cs| - 1] == c then 1 else 0
  }

  /** Going offline stops every active transfer: its job is killed and it waits to
      be started again. */
  lemma OfflineStops(cfg: Settings, m: Main, e: Event, i: nat)
    requires i < |m.items| && Active(m.items[i]) && (e == Toggle || (e == Connection(false) && m.connected))
    requires Step(cfg, m, e).Offline()
    ensures var r, it := Step(cfg, m, e), m.items[i];
            && |r.items| == |m.items| && r.items[i].status == Stopped && r.items[i].mode == Queued
            && r.items[i].issued == it.issued + [Kill]
  {
    var t := if e.Toggle? then m.(offlineMode := !m.offlineMode) else m.(connected := false);
    assert StopAll(t.items)[i] == Stop(m.items[i]);
  }

  lemma CountSnoc(cs: seq<Command>, c: Command, d: Command)
    ensures Count(cs + [d], c) == Count(cs, c) + if d == c then 1 else 0
  {
    assert (cs + [d])[..|cs|] == cs;
  }

  lemma OfflineQueue(cfg: Settings, m: Main, i: nat)
    requires i < |m.items| && m.Offline()
    ensures |CheckQueue(cfg, m).items| == |m.items| == |TransferTimeout(cfg, m).items|
    ensures Downloads(CheckQueue(cfg, m).items[i]) == Downloads(m.items[i])
    ensures Downloads(TransferTimeout(cfg, m).items[i]) == Downloads(m.items[i])
  {
    CountSnoc(m.items[i].issued, Retr, RetrCache);
  }

  /** The item has been given no command, or one that is not Retr. */
  ghost predicate NoRetr(it: Item, next: Item) {
    next.issued == it.issued || exists c :: c != Retr && next.issued == it.issued + [c]
  }

  lemma ReplacedOffline(cfg: Settings, m: Main, k: nat, next: Item, i: nat)
    requires k < |m.items| && i < |m.items| && m.Offline() && NoRetr(m.items[k], next)
    ensures var t := m.(items := m.items[k := next]);
            && Downloads(t.items[i]) == Downloads(CheckQueue(cfg, t).items[i]) == Downloads(m.items[i])
            && Downloads(TransferTimeout(cfg, t).items[i]) == Downloads(m.items[i])
  {
    if next.issued != m.items[k].issued {
      var c :| c != Retr && next.issued == m.items[k].issued + [c];
      CountSnoc(m.items[k].issued, Retr, c);
    }
    OfflineQueue(cfg, m.(items := m.items[k := next]), i);
  }

  /** While offline no event starts a download. */
  lemma OfflineStartsNothing(cfg: Settings, m: Main, e: Event, i: nat)
    requires i < |m.items| && Step(cfg, m, e).Offline() && !TakesOff(cfg, m, e, i)
    ensures var r, j := Step(cfg, m, e), Moved(cfg, m, e, i);
            j < |r.items| && Downloads(r.items[j]) == Downloads(m.items[i])
  {
    match e
    case Add(http) => OfflineQueue(cfg, m.(items := m.items + [NewItem(http, m.now)]), i);
    case Clock(now) => OfflineQueue(cfg, m.(now := now), i);
    case Toggle => SwitchedOffline(cfg, m, m.(offlineMode := !m.offlineMode), i);
    case Connection(up) =>
      if up != m.connected {
        SwitchedOffline(cfg, m, m.(connected := up), i);
      }
    case Slave(k, report) =>
      if k < |m.items| {
        OfflineReport(cfg, m, k, report, i);
      }
    case _ => OfflineUser(cfg, m, e, i);
  }

  lemma SwitchedOffline(cfg: Settings, m: Main, t: Main, i: nat)
    requires i < |m.items| && t.items == m.items && t.Offline()
    ensures var stopped := t.(items := StopAll(t.items));
            Downloads(stopped.items[i]) == Downloads(CheckQueue(cfg, stopped).items[i])
            == Downloads(CheckQueue(cfg, t).items[i]) == Downloads(m.items[i])
  {
    CountSnoc(m.items[i].issued, Retr, Kill);
    OfflineQueue(cfg, t.(items := StopAll(t.items)), i);
    OfflineQueue(cfg, t, i);
  }

  lemma DeletedOffline(cfg: Settings, m: Main, e: Event, k: nat, i: nat)
    requires i < |m.items| && k < |m.items| && k != i && m.Offline() && TakesOff(cfg, m, e, k)
    requires forall n: nat | n < |m.items| && TakesOff(cfg, m, e, n) :: n == k
    ensures var j := Moved(cfg, m, e, i);
            && j < |Delete(m, k).items| && Downloads(Delete(m, k).items[j]) == Downloads(m.items[i])
            && Downloads(CheckQueue(cfg, Delete(m, k)).items[j]) == Downloads(m.items[i])
  {
    MovedIs(cfg, m, e, i, k);
    Deleted(m, k, i);
    OfflineQueue(cfg, Delete(m, k), Moved(cfg, m, e, i));
  }

  lemma OfflineReport(cfg: Settings, m: Main, k: nat, report: Report, i: nat)
    requires k < |m.items| && i < |m.items| && m.Offline() && !TakesOff(cfg, m, Slave(k, report), i)
    ensures var r, j := OnReport(cfg, m, k, report), Moved(cfg, m, Slave(k, report), i);
            j < |r.items| && Downloads(r.items[j]) == Downloads(m.items[i])
  {
    var it := m.items[k];
    if TakesOff(cfg, m, Slave(k, report), k) {
      DeletedOffline(cfg, m, Slave(k, report), k, i);
    } else {
      match report
      case JobFinished => ReplacedOffline(cfg, m, k, Done(it), i);
      case JobFailed(e) => ReplacedOffline(cfg, m, k, AfterFailure(cfg, it, e, m.now), i);
      case IsConnected => ReplacedOffline(cfg, m, k, ExecConnected(cfg, it, true), i);
      case IsResumed => ReplacedOffline(cfg, m, k, it, i);
      case IsScheduled => ReplacedOffline(cfg, m, k, ExecSchedule(it), i);
      case _ => ReplacedOffline(cfg, m, k, ExecDelay(it), i);
    }
  }

  lemma OfflineUser(cfg: Settings, m: Main, e: Event, i: nat)
    requires i < |m.items| && m.Offline() && !TakesOff(cfg, m, e, i)
    requires e.UserPause? || e.UserQueue? || e.UserSchedule? || e.UserDelay? || e.UserRemove?
    ensures var r, j := OnUser(cfg, m, e), Moved(cfg, m, e, i);
            j < |r.items| && Downloads(r.items[j]) == Downloads(m.items[i])
  {
    if e.i < |m.items| {
      var it := m.items[e.i];
      if TakesOff(cfg, m, e, e.i) {
        DeletedOffline(cfg, m, e, e.i, i);
      } else {
        match e
        case UserPause(k) => ReplacedOffline(cfg, m, k, RequestPause(it), i);
        case UserQueue(k) => ReplacedOffline(cfg, m, k, Queue(it), i);
        case UserSchedule(k) => ReplacedOffline(cfg, m, k, RequestSchedule(it, m.now), i);
        case UserDelay(k) => ReplacedOffline(cfg, m, k, RequestDelay(it), i);
        case UserRemove(k) => ReplacedOffline(cfg, m, k, Op(it, Command.Remove), i);
      }
    }
  }
}
