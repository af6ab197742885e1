/** What kget's scheduler keeps in every run: the limit on simultaneous
    connections, and the assertions in the transfers' slots. */
module SchedulerLimit {
  import opened Scheduler
  import opened Sequences

  // ----- checkQueue

  lemma {:induction false} ActivePrefix(items: seq<Item>, n: nat)
    requires n < |items|
    ensures ActiveCount(items[..n + 1]) == ActiveCount(items[..n]) + if Active(items[n]) then 1 else 0
  {
    assert items[..n + 1][..n] == items[..n];
  }

  lemma {:induction false} EligiblePrefix(items: seq<Item>, n: nat)
    requires n < |items|
    ensures EligibleCount(items[..n + 1]) == EligibleCount(items[..n]) + if Eligible(items[n]) then 1 else 0
  {
    assert items[..n + 1][..n] == items[..n];
  }

  function Min(a: int, b: int): int {
    if a < b then a else b
  }

  function Free(cfg: Settings, items: seq<Item>): nat {
    if ActiveCount(items) < cfg.limit then cfg.limit - ActiveCount(items) else 0
  }

  /** Of the first `n` items exactly the first free-slot-many waiting ones have
      been started. */
  lemma {:induction false} StartedCount(cfg: Settings, items: seq<Item>, n: nat)
    requires n <= |items|
    ensures ActiveCount(StartQueued(cfg, items)[..n])
         == ActiveCount(items[..n]) + Min(EligibleCount(items[..n]), Free(cfg, items))
  {
    var r := StartQueued(cfg, items);
    if n > 0 {
      StartedCount(cfg, items, n - 1);
      ActivePrefix(items, n - 1);
      ActivePrefix(r, n - 1);
      EligiblePrefix(items, n - 1);
    }
  }

  lemma {:induction false} EligibleMonotone(items: seq<Item>, i: nat, n: nat)
    requires i <= n <= |items|
    ensures EligibleCount(items[..i]) <= EligibleCount(items[..n])
    ensures i < n && Eligible(items[i]) ==> EligibleCount(items[..i]) < EligibleCount(items[..n])
  {
    if i < n {
      EligibleMonotone(items, i, n - 1);
      EligiblePrefix(items, n - 1);
    }
  }

  /** Afterwards the limit is used up, or nobody is waiting any more. */
  lemma QueueExhausted(cfg: Settings, items: seq<Item>)
    ensures var r := StartQueued(cfg, items);
            ActiveCount(r) >= cfg.limit || forall i | 0 <= i < |r| :: !Eligible(r[i])
  {
    var r := StartQueued(cfg, items);
    StartedCount(cfg, items, |items|);
    assert items[..|items|] == items && r[..|r|] == r;
    if ActiveCount(r) < cfg.limit {
      forall i | 0 <= i < |r| ensures !Eligible(r[i]) {
        EligibleMonotone(items, i, |items|);
      }
    }
  }

  /** A run of `checkQueue` that finds the limit respected keeps it, and fills
      it as far as there are waiting items. */
  lemma CheckQueueFills(cfg: Settings, items: seq<Item>)
    ensures ActiveCount(StartQueued(cfg, items)) == ActiveCount(items) + Min(EligibleCount(items), Free(cfg, items))
  {
    StartedCount(cfg, items, |items|);
    assert items[..|items|] == items;
    assert StartQueued(cfg, items)[..|items|] == StartQueued(cfg, items);
  }

  // ----- the invariant

  /** Holds a connection: active, and not merely looking into the cache. */
  predicate Busy(it: Item) {
    Active(it) && it.mode != New
  }

  function BusyCount(items: seq<Item>): nat {
    if items == [] then 0
    else BusyCount(items[..|items| - 1]) + if Busy(items[|items| - 1]) then 1 else 0
  }

  ghost predicate GoodItem(it: Item) {
    && !it.failed
    && (it.status == Finished ==> it.mode == NoMode)
    && (Active(it) ==> it.mode == Queued || (it.mode == New && it.status == Trying))
  }

  ghost predicate AllGood(items: seq<Item>) {
    forall i {:trigger GoodItem(items[i])} | 0 <= i < |items| :: GoodItem(items[i])
  }

  ghost predicate Inv(cfg: Settings, m: Main) {
    AllGood(m.items) && BusyCount(m.items) <= cfg.limit
  }

  lemma {:induction false} BusyAtMostActive(items: seq<Item>)
    ensures BusyCount(items) <= ActiveCount(items)
  {
    if items != [] {
      BusyAtMostActive(items[..|items| - 1]);
    }
  }

  /** Replacing items one by one: the count of busy items changes by what the
      replacements add. */
  lemma {:induction false} BusyPointwise(a: seq<Item>, b: seq<Item>)
    requires |a| == |b| && forall i | 0 <= i < |a| :: Busy(b[i]) ==> Busy(a[i])
    ensures BusyCount(b) <= BusyCount(a)
  {
    if a != [] {
      BusyPointwise(a[..|a| - 1], b[..|b| - 1]);
    }
  }

  lemma {:induction false} StartedBusy(cfg: Settings, items: seq<Item>, n: nat)
    requires n <= |items|
    ensures BusyCount(StartQueued(cfg, items)[..n])
         <= BusyCount(items[..n]) + Min(EligibleCount(items[..n]), Free(cfg, items))
  {
    var r := StartQueued(cfg, items);
    if n > 0 {
      StartedBusy(cfg, items, n - 1);
      EligiblePrefix(items, n - 1);
      assert r[..n][..n - 1] == r[..n - 1] && items[..n][..n - 1] == items[..n - 1];
    }
  }

  lemma StartQueuedKeeps(cfg: Settings, items: seq<Item>)
    requires AllGood(items) && BusyCount(items) <= cfg.limit
    ensures AllGood(StartQueued(cfg, items)) && BusyCount(StartQueued(cfg, items)) <= cfg.limit
  {
    var r := StartQueued(cfg, items);
    StartedBusy(cfg, items, |items|);
    assert items[..|items|] == items && r[..|r|] == r;
    BusyAtMostActive(items);
    forall i | 0 <= i < |r| ensures GoodItem(r[i]) {
      assert GoodItem(items[i]);
    }
  }

  lemma CheckNewKeeps(cfg: Settings, items: seq<Item>)
    requires AllGood(items)
    ensures AllGood(CheckNew(cfg, items)) && BusyCount(CheckNew(cfg, items)) <= BusyCount(items)
  {
    var r := CheckNew(cfg, items);
    forall i | 0 <= i < |r| ensures GoodItem(r[i]) {
      assert GoodItem(items[i]);
    }
    BusyPointwise(items, r);
  }

  lemma CheckQueueKeeps(cfg: Settings, m: Main)
    requires Inv(cfg, m)
    ensures Inv(cfg, CheckQueue(cfg, m))
  {
    if !m.Offline() {
      StartQueuedKeeps(cfg, m.items);
    }
    CheckNewKeeps(cfg, if m.Offline() then m.items else StartQueued(cfg, m.items));
  }

  lemma QueueDueKeeps(items: seq<Item>, now: int)
    requires AllGood(items)
    ensures AllGood(QueueDue(items, now)) && BusyCount(QueueDue(items, now)) <= BusyCount(items)
  {
    var r := QueueDue(items, now);
    forall i | 0 <= i < |r| ensures GoodItem(r[i]) && (Busy(r[i]) ==> Busy(items[i])) {
      assert GoodItem(items[i]);
    }
    BusyPointwise(items, r);
  }

  lemma TransferTimeoutKeeps(cfg: Settings, m: Main)
    requires Inv(cfg, m)
    ensures Inv(cfg, TransferTimeout(cfg, m))
  {
    QueueDueKeeps(m.items, m.now);
    CheckQueueKeeps(cfg, m.(items := QueueDue(m.items, m.now)));
  }

  lemma ReplaceKeeps(cfg: Settings, m: Main, i: nat, it: Item)
    requires Inv(cfg, m) && i < |m.items| && GoodItem(it) && (Busy(it) ==> Busy(m.items[i]))
    ensures Inv(cfg, m.(items := m.items[i := it]))
  {
    var items := m.items[i := it];
    forall k | 0 <= k < |items| ensures GoodItem(items[k]) {
      assert k != i ==> GoodItem(m.items[k]);
    }
    BusyPointwise(m.items, items);
  }

  lemma {:induction false} BusyConcat(a: seq<Item>, b: seq<Item>)
    ensures BusyCount(a + b) == BusyCount(a) + BusyCount(b)
  {
    if b == [] {
      assert a + b == a;
    } else {
      BusyConcat(a, b[..|b| - 1]);
      assert (a + b)[..|a + b| - 1] == a + b[..|b| - 1];
    }
  }

  lemma DeleteKeeps(cfg: Settings, m: Main, i: nat)
    requires Inv(cfg, m) && i < |m.items|
    ensures Inv(cfg, Delete(m, i))
  {
    BusyWithout(m.items, i);
    var rest := Delete(m, i).items;
    forall k | 0 <= k < |rest| ensures GoodItem(rest[k]) {
      assert GoodItem(m.items[if k < i then k else k + 1]);
    }
  }

  lemma {:induction false} BusyWithout(items: seq<Item>, i: nat)
    requires i < |items|
    ensures BusyCount(items[..i] + items[i + 1..]) <= BusyCount(items)
  {
    var init := items[..|items| - 1];
    var r := items[..i] + items[i + 1..];
    if i == |items| - 1 {
      assert r == init;
    } else {
      BusyWithout(init, i);
      assert r[..|r| - 1] == init[..i] + init[i + 1..];
    }
  }

  lemma StopAllKeeps(cfg: Settings, m: Main)
    requires Inv(cfg, m)
    ensures Inv(cfg, m.(items := StopAll(m.items)))
  {
    var items := StopAll(m.items);
    forall i | 0 <= i < |items| ensures GoodItem(items[i]) {
      assert GoodItem(m.items[i]);
    }
    BusyPointwise(m.items, items);
  }

  lemma ReportKeeps(cfg: Settings, m: Main, i: nat, r: Report)
    requires Inv(cfg, m) && i < |m.items| && (r == IsConnected ==> Active(m.items[i]))
    ensures Inv(cfg, OnReport(cfg, m, i, r))
  {
    var it := m.items[i];
    assert GoodItem(it);
    match r
    case JobFailed(e) =>
      var next := AfterFailure(cfg, it, e, m.now);
      ReplaceKeeps(cfg, m, i, next);
      CheckQueueKeeps(cfg, m.(items := m.items[i := next]));
      TransferTimeoutKeeps(cfg, m.(items := m.items[i := next]));
    case JobFinished =>
      DeleteKeeps(cfg, m, i);
      CheckQueueKeeps(cfg, Delete(m, i));
      ReplaceKeeps(cfg, m, i, Done(it));
      CheckQueueKeeps(cfg, m.(items := m.items[i := Done(it)]));
    case IsConnected =>
      var next := ExecConnected(cfg, it, m.Offline());
      ReplaceKeeps(cfg, m, i, next);
      CheckQueueKeeps(cfg, m.(items := m.items[i := next]));
    case IsResumed => CheckQueueKeeps(cfg, m);
    case IsScheduled =>
      ReplaceKeeps(cfg, m, i, ExecSchedule(it));
      TransferTimeoutKeeps(cfg, m.(items := m.items[i := ExecSchedule(it)]));
    case IsRemoved => DeleteKeeps(cfg, m, i);
    case _ =>
      ReplaceKeeps(cfg, m, i, ExecDelay(it));
      CheckQueueKeeps(cfg, m.(items := m.items[i := ExecDelay(it)]));
  }

  lemma UserKeeps(cfg: Settings, m: Main, e: Event)
    requires Inv(cfg, m) && Allowed(m, e)
    ensures Inv(cfg, OnUser(cfg, m, e))
  {
    match e
    case UserPause(i) =>
      if i < |m.items| {
        assert GoodItem(m.items[i]);
        ReplaceKeeps(cfg, m, i, RequestPause(m.items[i]));
      }
    case UserQueue(i) =>
      if i < |m.items| {
        var next := Queue(m.items[i]);
        assert GoodItem(m.items[i]);
        ReplaceKeeps(cfg, m, i, next);
        CheckQueueKeeps(cfg, m.(items := m.items[i := next]));
      }
    case UserSchedule(i) =>
      if i < |m.items| {
        var next := RequestSchedule(m.items[i], m.now);
        assert GoodItem(m.items[i]);
        ReplaceKeeps(cfg, m, i, next);
        TransferTimeoutKeeps(cfg, m.(items := m.items[i := next]));
      }
    case UserDelay(i) =>
      if i < |m.items| {
        var next := RequestDelay(m.items[i]);
        assert GoodItem(m.items[i]);
        ReplaceKeeps(cfg, m, i, next);
        CheckQueueKeeps(cfg, m.(items := m.items[i := next]));
      }
    case UserRemove(i) =>
      if i < |m.items| {
        assert GoodItem(m.items[i]);
        ReplaceKeeps(cfg, m, i, Op(m.items[i], Command.Remove));
        CheckQueueKeeps(cfg, m.(items := m.items[i := Op(m.items[i], Command.Remove)]));
        DeleteKeeps(cfg, m, i);
        CheckQueueKeeps(cfg, Delete(m, i));
      }
    case _ =>
  }

  lemma AddKeeps(cfg: Settings, m: Main, http: bool)
    requires Inv(cfg, m)
    ensures Inv(cfg, m.(items := m.items + [NewItem(http, m.now)]))
  {
    var item := NewItem(http, m.now);
    BusyConcat(m.items, [item]);
    assert [item][..0] == [];
    forall i | 0 <= i < |m.items + [item]| ensures GoodItem((m.items + [item])[i]) {
      assert i < |m.items| ==> GoodItem(m.items[i]);
    }
  }

  lemma StepKeeps(cfg: Settings, m: Main, e: Event)
    requires Inv(cfg, m) && Allowed(m, e)
    ensures Inv(cfg, Step(cfg, m, e))
  {
    match e
    case Add(http) =>
      AddKeeps(cfg, m, http);
      CheckQueueKeeps(cfg, m.(items := m.items + [NewItem(http, m.now)]));
    case Slave(i, r) =>
      if i < |m.items| {
        ReportKeeps(cfg, m, i, r);
      }
    case Clock(now) => TransferTimeoutKeeps(cfg, m.(now := now));
    case Toggle =>
      var t := m.(offlineMode := !m.offlineMode);
      StopAllKeeps(cfg, t);
      CheckQueueKeeps(cfg, if t.Offline() then t.(items := StopAll(t.items)) else t);
    case Connection(up) =>
      var t := m.(connected := up);
      StopAllKeeps(cfg, t);
      CheckQueueKeeps(cfg, t);
    case _ => UserKeeps(cfg, m, e);
  }

  /** In every run, going offline and online included, the number of transfers
      that hold a connection stays within the limit, finished transfers have no
      mode, and no assertion of a transfer's slots fails. */
  lemma {:induction false} LimitKept(cfg: Settings, m: Main, events: seq<Event>)
    requires Inv(cfg, m) && AllAllowed(cfg, m, events)
    ensures Inv(cfg, Run(cfg, m, events))
  {
    if events != [] {
      LimitKept(cfg, m, events[..|events| - 1]);
      StepKeeps(cfg, Run(cfg, m, events[..|events| - 1]), events[|events| - 1]);
    }
  }

  // ----- where the limit ends

  lemma {:induction false} BusyReplaced(items: seq<Item>, i: nat, it: Item)
    requires i < |items|
    ensures BusyCount(items[i := it])
         == BusyCount(items) + (if Busy(it) then 1 else 0) - (if Busy(items[i]) then 1 else 0)
  {
    var init, r := items[..|items| - 1], items[i := it];
    if i < |items| - 1 {
      BusyReplaced(init, i, it);
      assert r[..|r| - 1] == init[i := it];
    } else {
      assert r[..|r| - 1] == init;
    }
  }

  /** Running `checkQueue` ends no connection, and opens none beyond the limit. */
  lemma CheckQueueBusy(cfg: Settings, m: Main)
    ensures var r := CheckQueue(cfg, m);
            && BusyCount(m.items) <= BusyCount(r.items)
            && (BusyCount(r.items) <= cfg.limit <==> BusyCount(m.items) <= cfg.limit)
  {
    var started := if m.Offline() then m.items else StartQueued(cfg, m.items);
    BusyPointwise(CheckNew(cfg, started), m.items);
    BusyPointwise(started, CheckNew(cfg, started));
    StartedBusy(cfg, m.items, |m.items|);
    assert m.items[..|m.items|] == m.items && StartQueued(cfg, m.items)[..|m.items|] == StartQueued(cfg, m.items);
    BusyAtMostActive(m.items);
  }

  /** A reported connection keeps the limit iff it comes from an active job, or
      ends a cache check, or there is room for one more. */
  lemma ConnectionWithinIff(cfg: Settings, m: Main, i: nat)
    requires Inv(cfg, m) && i < |m.items|
    ensures BusyCount(Step(cfg, m, Slave(i, IsConnected)).items) <= cfg.limit
       <==> Active(m.items[i]) || m.items[i].mode == New || BusyCount(m.items) < cfg.limit
  {
    var it := m.items[i];
    assert GoodItem(it);
    var next := ExecConnected(cfg, it, m.Offline());
    BusyReplaced(m.items, i, next);
    CheckQueueBusy(cfg, m.(items := m.items[i := next]));
  }

  /** Queueing a transfer keeps the limit iff it is not in its cache check, or
      there is room for one more. */
  lemma QueueWithinIff(cfg: Settings, m: Main, i: nat)
    requires Inv(cfg, m) && i < |m.items|
    ensures BusyCount(Step(cfg, m, UserQueue(i)).items) <= cfg.limit
       <==> !(Active(m.items[i]) && m.items[i].mode == New) || BusyCount(m.items) < cfg.limit
  {
    assert GoodItem(m.items[i]);
    var next := Queue(m.items[i]);
    BusyReplaced(m.items, i, next);
    CheckQueueBusy(cfg, m.(items := m.items[i := next]));
  }

  // ----- runs that exceed it

  /** Neither connected nor waiting to be. */
  predicate Idle(it: Item) {
    !Active(it) && it.mode != Queued && it.mode != New
  }

  /** Online, with `d` idle transfers and then `k` downloads. */
  ghost predicate Loaded(m: Main, d: nat, k: nat) {
    && !m.Offline() && |m.items| == d + k
    && (forall i | 0 <= i < d :: Idle(m.items[i]))
    && (forall i | d <= i < d + k :: Active(m.items[i]) && m.items[i].mode == Queued)
  }

  lemma {:induction false} LoadedCounts(m: Main, d: nat, k: nat, n: nat)
    requires Loaded(m, d, k) && n <= d + k
    ensures var busy := if n <= d then 0 else n - d;
            ActiveCount(m.items[..n]) == BusyCount(m.items[..n]) == busy && EligibleCount(m.items[..n]) == 0
  {
    if n > 0 {
      LoadedCounts(m, d, k, n - 1);
      ActivePrefix(m.items, n - 1);
      EligiblePrefix(m.items, n - 1);
      assert m.items[..n][..n - 1] == m.items[..n - 1];
    }
  }

  /** A transfer is added while `k` downloads are running. */
  lemma Added(cfg: Settings, m: Main, d: nat, k: nat, http: bool)
    requires Loaded(m, d, k) && k <= cfg.limit
    ensures var it := NewItem(http, m.now);
            Step(cfg, m, Add(http)).items == m.items + [if k < cfg.limit then Resume(cfg, it) else CheckCache(cfg, it)]
  {
    var it, n := NewItem(http, m.now), d + k;
    var items := m.items + [it];
    LoadedCounts(m, d, k, n);
    ActivePrefix(items, n);
    assert m.items[..n] == m.items && items[..n] == m.items && items[..n + 1] == items;
    forall i | 0 <= i < n ensures !Eligible(items[i]) && CheckOne(cfg, items[i]) == items[i] {
      assert items[i] == m.items[i];
    }
    assert Starts(cfg, items, n) <==> k < cfg.limit;
  }

  /** `k` new ftp transfers. */
  function Downloads(k: nat): seq<Event> {
    seq(k, _ => Add(false))
  }

  lemma DownloadsNext(k: nat)
    ensures Downloads(k + 1) == Downloads(k) + [Add(false)]
  {
  }

  lemma RunSnoc(cfg: Settings, m: Main, events: seq<Event>, e: Event)
    ensures Run(cfg, m, events + [e]) == Step(cfg, Run(cfg, m, events), e)
  {
    assert (events + [e])[..|events|] == events;
  }

  lemma RunNextFrom(cfg: Settings, m: Main, events: seq<Event>, e: Event, reached: Main, next: Main)
    requires Run(cfg, m, events) == reached && Step(cfg, reached, e) == next
    ensures Run(cfg, m, events + [e]) == next
  {
    RunSnoc(cfg, m, events, e);
  }

  lemma DownloadStarts(cfg: Settings, m: Main, d: nat, k: nat) returns (r: Main)
    requires Loaded(m, d, k) && k < cfg.limit
    ensures r == Step(cfg, m, Add(false)) && Loaded(r, d, k + 1)
  {
    Added(cfg, m, d, k, false);
    r := Step(cfg, m, Add(false));
    assert forall i | 0 <= i < d + k :: r.items[i] == m.items[i];
  }

  lemma {:induction false} DownloadsLoad(cfg: Settings, m: Main, d: nat, k: nat) returns (r: Main)
    requires Loaded(m, d, 0) && k <= cfg.limit
    ensures r == Run(cfg, m, Downloads(k)) && Loaded(r, d, k)
    decreases k
  {
    if k == 0 {
      r := m;
    } else {
      var reached := DownloadsLoad(cfg, m, d, k - 1);
      r := DownloadStarts(cfg, reached, d, k - 1);
      DownloadsNext(k - 1);
      RunNextFrom(cfg, m, Downloads(k - 1), Add(false), reached, r);
    }
  }

  lemma {:induction false} RunAppend(cfg: Settings, m: Main, a: seq<Event>, b: seq<Event>)
    ensures Run(cfg, m, a + b) == Run(cfg, Run(cfg, m, a), b)
    decreases |b|
  {
    if b == [] {
      EmptyLast(a);
    } else {
      var init, e := b[..|b| - 1], b[|b| - 1];
      LastApart(a, b);
      RunAppend(cfg, m, a, init);
      RunNextFrom(cfg, m, a + init, e, Run(cfg, m, a + init), Step(cfg, Run(cfg, m, a + init), e));
      RunNextFrom(cfg, Run(cfg, m, a), init, e, Run(cfg, m, a + init), Step(cfg, Run(cfg, m, a + init), e));
    }
  }

  /** kget started online. */
  function Online(now: int): Main {
    Main([], false, true, now)
  }

  /** A transfer delayed while its job is still connecting: the job goes on. */
  function DelayedFirst(): seq<Event> {
    [Add(false)] + [UserDelay(0)]
  }

  lemma OneDownload(cfg: Settings, now: int)
    requires 1 <= cfg.limit
    ensures var r := Run(cfg, Online(now), [Add(false)]);
            r == Online(now).(items := [Resume(cfg, NewItem(false, now))]) && AllAllowed(cfg, Online(now), [Add(false)])
  {
    var m := Online(now);
    Added(cfg, m, 0, 0, false);
    EmptyFirst([Add(false)]);
    RunNextFrom(cfg, m, [], Add(false), m, Step(cfg, m, Add(false)));
    AllowedNext(cfg, m, [], Add(false));
    EmptyFirst([Resume(cfg, NewItem(false, now))]);
  }

  lemma DelayedWhileTrying(cfg: Settings, now: int)
    requires 1 <= cfg.limit
    ensures Loaded(Run(cfg, Online(now), DelayedFirst()), 1, 0)
    ensures AllAllowed(cfg, Online(now), DelayedFirst())
  {
    var m, it := Online(now), Resume(cfg, NewItem(false, now));
    OneDownload(cfg, now);
    var one := m.(items := [it]);
    DelayAlone(cfg, one, it);
    RunNextFrom(cfg, m, [Add(false)], UserDelay(0), one, one.(items := [ExecDelay(it)]));
    AllowedNext(cfg, m, [Add(false)], UserDelay(0));
  }

  lemma AllowedNext(cfg: Settings, m: Main, events: seq<Event>, e: Event)
    requires AllAllowed(cfg, m, events) && Allowed(Run(cfg, m, events), e)
    ensures AllAllowed(cfg, m, events + [e])
  {
    assert (events + [e])[..|events|] == events;
  }

  lemma DelayAlone(cfg: Settings, m: Main, it: Item)
    requires m.items == [it] && it.status == Trying && it.mode == Queued
    ensures Step(cfg, m, UserDelay(0)) == m.(items := [ExecDelay(it)])
  {
    var next := ExecDelay(it);
    assert RequestDelay(it) == next;
    assert [it][0 := next] == [next];
    assert StartQueued(cfg, [next]) == [next] && CheckNew(cfg, [next]) == [next];
  }

  /** For every limit: a transfer is delayed while it is connecting, the free
      slots fill up, and its connection comes in after all. */
  lemma LateConnection(cfg: Settings, now: int)
    requires 1 <= cfg.limit
    ensures var events := DelayedFirst() + Downloads(cfg.limit);
            && AllAllowed(cfg, Online(now), events)
            && BusyCount(Run(cfg, Online(now), events + [Slave(0, IsConnected)]).items) > cfg.limit
  {
    var events := DelayedFirst() + Downloads(cfg.limit);
    DelayedWhileTrying(cfg, now);
    var m := DownloadsLoad(cfg, Run(cfg, Online(now), DelayedFirst()), 1, cfg.limit);
    RunAppend(cfg, Online(now), DelayedFirst(), Downloads(cfg.limit));
    DownloadsAllowed(cfg, Online(now), DelayedFirst(), cfg.limit);
    LimitKept(cfg, Online(now), events);
    LateExceeds(cfg, m);
    RunSnoc(cfg, Online(now), events, Slave(0, IsConnected));
  }

  lemma LateExceeds(cfg: Settings, m: Main)
    requires Inv(cfg, m) && Loaded(m, 1, cfg.limit)
    ensures BusyCount(Step(cfg, m, Slave(0, IsConnected)).items) > cfg.limit
  {
    LoadedBusy(m, 1, cfg.limit);
    assert Idle(m.items[0]);
    ConnectionWithinIff(cfg, m, 0);
  }

  lemma {:induction false} DownloadsAllowed(cfg: Settings, m: Main, before: seq<Event>, k: nat)
    requires AllAllowed(cfg, m, before)
    ensures AllAllowed(cfg, m, before + Downloads(k))
  {
    if k == 0 {
      assert before + Downloads(0) == before;
    } else {
      DownloadsNext(k - 1);
      Assoc(before, Downloads(k - 1), [Add(false)]);
      DownloadsAllowed(cfg, m, before, k - 1);
      AllowedNext(cfg, m, before + Downloads(k - 1), Add(false));
    }
  }

  lemma CheckStarts(cfg: Settings, m: Main)
    requires Loaded(m, 0, cfg.limit)
    ensures var r := Step(cfg, m, Add(true)).items;
            |r| == cfg.limit + 1 && BusyCount(r) == cfg.limit
            && Active(r[cfg.limit]) && r[cfg.limit].mode == New
  {
    LoadedBusy(m, 0, cfg.limit);
    Added(cfg, m, 0, cfg.limit, true);
  }

  lemma LoadedBusy(m: Main, d: nat, k: nat)
    requires Loaded(m, d, k)
    ensures BusyCount(m.items) == k
  {
    LoadedCounts(m, d, k, d + k);
    assert m.items[..d + k] == m.items;
  }

  /** For every limit: with all slots taken a transfer looks into the cache, and
      is queued meanwhile. */
  lemma QueuedDuringCacheCheck(cfg: Settings, now: int)
    ensures var events := Downloads(cfg.limit) + [Add(true)];
            && AllAllowed(cfg, Online(now), events)
            && BusyCount(Run(cfg, Online(now), events + [UserQueue(cfg.limit)]).items) > cfg.limit
  {
    var n := cfg.limit;
    var m := DownloadsLoad(cfg, Online(now), 0, n);
    DownloadsAllowed(cfg, Online(now), [], n);
    EmptyFirst(Downloads(n));
    AllowedNext(cfg, Online(now), Downloads(n), Add(true));
    CheckStarts(cfg, m);
    RunNextFrom(cfg, Online(now), Downloads(n), Add(true), m, Step(cfg, m, Add(true)));
    var events := Downloads(n) + [Add(true)];
    LimitKept(cfg, Online(now), events);
    QueueExceeds(cfg, Run(cfg, Online(now), events));
    RunSnoc(cfg, Online(now), events, UserQueue(n));
  }

  lemma QueueExceeds(cfg: Settings, m: Main)
    requires Inv(cfg, m) && |m.items| == cfg.limit + 1 && BusyCount(m.items) == cfg.limit
    requires Active(m.items[cfg.limit]) && m.items[cfg.limit].mode == New
    ensures BusyCount(Step(cfg, m, UserQueue(cfg.limit)).items) > cfg.limit
  {
    QueueWithinIff(cfg, m, cfg.limit);
  }
}
