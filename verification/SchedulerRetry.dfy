/** Automatic retries in kget: while the user does nothing and the connection
    does not change, no transfer is attempted more often than the settings say. */
module SchedulerRetry {
  import opened Scheduler

  /** How often a transfer may be attempted. */
  function Bound(cfg: Settings): nat {
    if cfg.reconnectRetries == 0 then 1 else cfg.reconnectRetries
  }

  /** New transfers, time passing, and what the job of an active transfer
      reports by itself. */
  predicate Automatic(m: Main, e: Event) {
    match e
    case Add(_) => true
    case Clock(_) => true
    case Slave(i, r) =>
      (r.JobFailed? || r.JobFinished? || r.IsConnected? || r.IsResumed?)
      && (i < |m.items| ==> Active(m.items[i]))
    case _ => false
  }

  ghost predicate AllAutomatic(cfg: Settings, m: Main, events: seq<Event>) {
    events == [] || (AllAutomatic(cfg, m, events[..|events| - 1])
                     && Automatic(Run(cfg, m, events[..|events| - 1]), events[|events| - 1]))
  }

  /** The retry counter agrees with the attempts made (with no retries allowed
      it stays 1), and a transfer that waits to be started has attempts left. */
  ghost predicate Tame(cfg: Settings, it: Item) {
    && it.attempts == multiset(it.issued)[Retr]
    && it.attempts <= Bound(cfg)
    && (it.mode == New ==>
          it.attempts == 0 && it.retryCount == 0 && (it.status == Stopped || it.status == Trying))
    && (Active(it) && it.mode != New ==>
          it.mode == Queued && 1 <= it.attempts
          && it.retryCount == if cfg.reconnectRetries == 0 then 1 else it.attempts)
    && (it.status == Stopped && (it.mode == Queued || it.mode == Scheduled) ==>
          it.retryCount == it.attempts < Bound(cfg))
    && (it.status == Finished ==> it.mode == NoMode)
  }

  ghost predicate AllTame(cfg: Settings, items: seq<Item>) {
    forall i {:trigger items[i]} | 0 <= i < |items| :: Tame(cfg, items[i])
  }

  lemma TameResume(cfg: Settings, it: Item)
    requires Tame(cfg, it) && Eligible(it)
    ensures Tame(cfg, Resume(cfg, it))
  {
    assert multiset(it.issued + [Retr]) == multiset(it.issued) + multiset{Retr};
  }

  lemma CheckQueueTame(cfg: Settings, m: Main)
    requires AllTame(cfg, m.items)
    ensures AllTame(cfg, CheckQueue(cfg, m).items)
  {
    var started := if m.Offline() then m.items else StartQueued(cfg, m.items);
    forall i | 0 <= i < |started| ensures Tame(cfg, CheckOne(cfg, started[i])) {
      assert Tame(cfg, m.items[i]);
      if Eligible(m.items[i]) {
        TameResume(cfg, m.items[i]);
      }
    }
  }

  lemma TimeoutTame(cfg: Settings, m: Main)
    requires AllTame(cfg, m.items)
    ensures AllTame(cfg, TransferTimeout(cfg, m).items)
  {
    var queued := m.(items := QueueDue(m.items, m.now));
    forall i | 0 <= i < |queued.items| ensures Tame(cfg, queued.items[i]) {
      assert Tame(cfg, m.items[i]);
    }
    CheckQueueTame(cfg, queued);
  }

  predicate Retriable(cfg: Settings, e: JobError) {
    (e == LoginOrTimeout && cfg.onError) || (e == BrokenConnection && cfg.onBroken)
  }

  /** A download that fails is tried again exactly when its kind of error is to
      be retried and attempts are left; otherwise it is given up. */
  lemma RetriedIff(cfg: Settings, it: Item, e: JobError, now: int)
    requires Tame(cfg, it) && Active(it) && it.mode != New
    ensures var r := AfterFailure(cfg, it, e, now);
            && Tame(cfg, r) && r.status == Stopped && r.attempts == it.attempts
            && (r.mode == Queued || r.mode == Scheduled <==>
                Retriable(cfg, e) && it.attempts < cfg.reconnectRetries)
            && (r.mode == Delayed <==> !(Retriable(cfg, e) && it.attempts < cfg.reconnectRetries))
  {
  }

  lemma FailureTame(cfg: Settings, m: Main, i: nat, e: JobError)
    requires AllTame(cfg, m.items) && i < |m.items| && Active(m.items[i])
    ensures AllTame(cfg, OnReport(cfg, m, i, JobFailed(e)).items)
  {
    var it := m.items[i];
    assert Tame(cfg, AfterFailure(cfg, it, e, m.now)) by {
      if it.mode != New {
        RetriedIff(cfg, it, e, m.now);
      }
    }
    var next := m.(items := m.items[i := AfterFailure(cfg, it, e, m.now)]);
    CheckQueueTame(cfg, next);
    TimeoutTame(cfg, next);
  }

  lemma ReportTame(cfg: Settings, m: Main, i: nat, r: Report)
    requires AllTame(cfg, m.items) && Automatic(m, Slave(i, r)) && i < |m.items|
    ensures AllTame(cfg, OnReport(cfg, m, i, r).items)
  {
    var it := m.items[i];
    match r
    case JobFailed(e) =>
      FailureTame(cfg, m, i, e);
    case JobFinished =>
      CheckQueueTame(cfg, Delete(m, i));
      CheckQueueTame(cfg, m.(items := m.items[i := Done(it)]));
    case IsConnected =>
      CheckQueueTame(cfg, m.(items := m.items[i := ExecConnected(cfg, it, m.Offline())]));
    case IsResumed =>
      CheckQueueTame(cfg, m);
  }

  lemma StepTame(cfg: Settings, m: Main, e: Event)
    requires AllTame(cfg, m.items) && Automatic(m, e)
    ensures AllTame(cfg, Step(cfg, m, e).items)
  {
    match e
    case Add(http) =>
      CheckQueueTame(cfg, m.(items := m.items + [NewItem(http, m.now)]));
    case Slave(i, r) =>
      if i < |m.items| {
        ReportTame(cfg, m, i, r);
      }
    case Clock(now) => TimeoutTame(cfg, m.(now := now));
  }

  lemma {:induction false} RunTame(cfg: Settings, m: Main, events: seq<Event>)
    requires AllTame(cfg, m.items) && AllAutomatic(cfg, m, events)
    ensures AllTame(cfg, Run(cfg, m, events).items)
  {
    if events != [] {
      RunTame(cfg, m, events[..|events| - 1]);
      StepTame(cfg, Run(cfg, m, events[..|events| - 1]), events[|events| - 1]);
    }
  }

  /** Left to itself, kget gives no transfer's slave more than the bound of
      download commands, however long it runs. */
  lemma AttemptsBounded(cfg: Settings, m: Main, events: seq<Event>)
    requires m.items == [] && AllAutomatic(cfg, m, events)
    ensures var end := Run(cfg, m, events).items;
            forall i | 0 <= i < |end| :: multiset(end[i].issued)[Retr] <= Bound(cfg)
  {
    RunTame(cfg, m, events);
  }

  // ----- the bound is reached

  /** An item that has failed `k` times with a broken connection and been
      started again each time, alone in an idle main window. */
  function Retried(cfg: Settings, k: nat): Main {
    if k == 0 then Step(cfg, Main([], false, true, 0), Add(false))
    else Step(cfg, Retried(cfg, k - 1), Slave(0, JobFailed(BrokenConnection)))
  }

  lemma Alone(cfg: Settings, it: Item)
    requires Eligible(it) && it.status == Stopped && 1 <= cfg.limit
    ensures CheckNew(cfg, StartQueued(cfg, [it])) == [Resume(cfg, it)]
  {
    assert [it][..0] == [];
    assert ActiveCount([it]) == 0;
  }

  lemma BrokenRestarts(cfg: Settings, m: Main, it: Item)
    requires m.items == [it] && !m.Offline() && cfg.onBroken && 1 <= cfg.limit
    requires Tame(cfg, it) && Active(it) && it.mode == Queued && it.attempts < Bound(cfg)
    ensures Step(cfg, m, Slave(0, JobFailed(BrokenConnection))) == m.(items := [Resume(cfg, ExecBroken(it))])
  {
    var broken := ExecBroken(it);
    RetriedIff(cfg, it, BrokenConnection, m.now);
    assert AfterFailure(cfg, it, BrokenConnection, m.now) == broken;
    assert [it][0 := broken] == [broken];
    Alone(cfg, broken);
    assert OnReport(cfg, m, 0, JobFailed(BrokenConnection)) == ReplaceAndCheck(cfg, m, 0, broken);
  }

  /** Online, with one transfer that is on its `n`-th attempt. */
  ghost predicate OnAttempt(cfg: Settings, m: Main, n: nat) {
    !m.Offline() && |m.items| == 1
    && Tame(cfg, m.items[0]) && Active(m.items[0]) && m.items[0].mode == Queued && m.items[0].attempts == n
  }

  lemma FirstAttempt(cfg: Settings)
    requires 1 <= cfg.limit
    ensures OnAttempt(cfg, Retried(cfg, 0), 1)
  {
    var item := NewItem(false, 0);
    Alone(cfg, item);
    TameResume(cfg, item);
    assert [] + [item] == [item];
  }

  lemma NextAttempt(cfg: Settings, m: Main, n: nat)
    requires OnAttempt(cfg, m, n) && cfg.onBroken && 1 <= cfg.limit && n < Bound(cfg)
    ensures OnAttempt(cfg, Step(cfg, m, Slave(0, JobFailed(BrokenConnection))), n + 1)
  {
    var it := m.items[0];
    BrokenRestarts(cfg, m, it);
    RetriedIff(cfg, it, BrokenConnection, 0);
    TameResume(cfg, ExecBroken(it));
  }

  lemma {:induction false} BoundIsReached(cfg: Settings, k: nat)
    requires cfg.onBroken && 1 <= cfg.limit && k < Bound(cfg)
    ensures OnAttempt(cfg, Retried(cfg, k), k + 1)
  {
    if k == 0 {
      FirstAttempt(cfg);
    } else {
      BoundIsReached(cfg, k - 1);
      NextAttempt(cfg, Retried(cfg, k - 1), k);
    }
  }
}
