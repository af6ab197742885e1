/** kget's transfers and main window with the fields they update in place
    (kget/transfer.cpp, kget/kmainwidget.cpp).  Every slot is proved against the
    machine of module Scheduler; the assertions in the slots of the source are
    their preconditions. */
module KGetWidget {
  import opened Scheduler
  import opened SchedulerLimit
  import opened Sequences

  /** What a transfer tells the main window with `statusChanged`. */
  datatype Operation =
    | OpFinished | OpResumed | OpPaused | OpRemoved | OpDelayed | OpQueued | OpScheduled | OpConnected | OpNothing

  function FailureOp(it: Item, next: Item): Operation {
    if it.mode == New then OpNothing
    else match next.mode case Scheduled => OpScheduled case Queued => OpQueued case _ => OpDelayed
  }

  function ConnectedOp(cfg: Settings, it: Item, offline: bool): Operation {
    if it.mode != New then OpConnected
    else if offline then OpNothing else if cfg.addQueued then OpQueued else OpDelayed
  }

  class Transfer {
    const http: bool
    var status: Status
    var mode: Mode
    var retryCount: nat
    var startTime: int
    var issued: seq<Command>
    ghost var attempts: nat

    constructor (http: bool, now: int)
      ensures View() == NewItem(http, now)
    {
      this.http := http;
      status, mode, retryCount, startTime, issued := Stopped, New, 0, now, [];
      attempts := 0;
    }

    ghost function View(): Item
      reads this
    {
      Item(status, mode, retryCount, startTime, http, issued, attempts, false)
    }

    method SlotResume(cfg: Settings)
      requires status == Stopped
      modifies this
      ensures View() == Resume(cfg, old(View()))
    {
      retryCount := retryCount + 1;
      if retryCount > cfg.reconnectRetries {
        retryCount := 1;
      }
      status := Trying;
      mode := Queued;
      issued := issued + [Retr];
      attempts := attempts + 1;
    }

    method SlotStop(offline: bool)
      requires Active(View()) && offline
      modifies this
      ensures View() == Stop(old(View()))
    {
      issued := issued + [Kill];
      mode := Queued;
      status := Stopped;
    }

    method SlotRequestPause()
      requires Active(View())
      modifies this
      ensures View() == RequestPause(old(View()))
    {
      issued := issued + [Pause];
    }

    method SlotQueue() returns (op: Operation)
      requires mode != Queued
      modifies this
      ensures View() == Queue(old(View())) && op == OpQueued
    {
      mode := Queued;
      op := OpQueued;
    }

    method SlotRequestSchedule(now: int) returns (op: Operation)
      requires mode != Scheduled
      modifies this
      ensures View() == RequestSchedule(old(View()), now)
      ensures op == if old(status) == Running then OpNothing else OpScheduled
    {
      if startTime < now {
        startTime := now + 60;
      }
      if status == Running {
        issued := issued + [Schedule];
        op := OpNothing;
      } else {
        op := SlotExecSchedule();
      }
    }

    method SlotRequestDelay() returns (op: Operation)
      requires mode != Delayed
      modifies this
      ensures View() == RequestDelay(old(View()))
      ensures op == if old(status) == Running then OpNothing else OpDelayed
    {
      if status == Running {
        issued := issued + [Command.Delay];
        op := OpNothing;
      } else {
        op := SlotExecDelay();
      }
    }

    method SlotRequestRemove() returns (op: Operation)
      modifies this
      ensures op == if old(status) == Running then OpNothing else OpRemoved
      ensures View() == if old(status) == Running then Op(old(View()), Command.Remove) else old(View())
    {
      if status == Running {
        issued := issued + [Command.Remove];
        op := OpNothing;
      } else {
        op := OpRemoved;
      }
    }

    method SlotFinished() returns (op: Operation)
      modifies this
      ensures View() == Done(old(View())) && op == OpFinished
    {
      mode := NoMode;
      status := Finished;
      op := OpFinished;
    }

    method SlotExecDelay() returns (op: Operation)
      modifies this
      ensures View() == ExecDelay(old(View())) && op == OpDelayed
    {
      mode := Delayed;
      status := Stopped;
      op := OpDelayed;
    }

    method SlotExecPause() returns (op: Operation)
      modifies this
      ensures View() == ExecDelay(old(View())) && op == OpPaused
    {
      mode := Delayed;
      status := Stopped;
      op := OpPaused;
    }

    method SlotExecSchedule() returns (op: Operation)
      modifies this
      ensures View() == ExecSchedule(old(View())) && op == OpScheduled
    {
      mode := Scheduled;
      status := Stopped;
      op := OpScheduled;
    }

    method SlotExecError(cfg: Settings, now: int) returns (op: Operation)
      modifies this
      ensures View() == ExecError(cfg, old(View()), now) && op == OpScheduled
    {
      status := Stopped;
      mode := Scheduled;
      startTime := now + cfg.reconnectTime * 60;
      op := OpScheduled;
    }

    method SlotExecBroken() returns (op: Operation)
      modifies this
      ensures View() == ExecBroken(old(View())) && op == OpQueued
    {
      status := Stopped;
      mode := Queued;
      op := OpQueued;
    }

    method SlotExecConnected(cfg: Settings, offline: bool) returns (op: Operation)
      modifies this
      ensures View() == ExecConnected(cfg, old(View()), offline)
      ensures op == ConnectedOp(cfg, old(View()), offline)
    {
      if mode == New {
        if offline {
          return OpNothing;
        }
        status := Stopped;
        issued := issued + [Kill];
        if cfg.addQueued {
          mode := Queued;
          return OpQueued;
        } else {
          mode := Delayed;
          return OpDelayed;
        }
      }
      status := Running;
      op := OpConnected;
    }

    method CacheMiss(cfg: Settings)
      modifies this
      ensures View() == NotInCache(cfg, old(View()))
    {
      if cfg.addQueued {
        mode := Queued;
      } else {
        mode := Delayed;
      }
      status := Stopped;
    }

    method LookIntoCache(cfg: Settings)
      requires mode == New
      modifies this
      ensures View() == CheckCache(cfg, old(View()))
    {
      if http {
        status := Trying;
        issued := issued + [RetrCache];
      } else {
        CacheMiss(cfg);
      }
    }

    /** The slave's job has ended with an error. */
    method SlotJobFailed(cfg: Settings, e: JobError, now: int) returns (op: Operation)
      modifies this
      ensures View() == AfterFailure(cfg, old(View()), e, now)
      ensures op == FailureOp(old(View()), View())
    {
      if mode == New {
        CacheMiss(cfg);
        op := OpNothing;
      } else if e == LoginOrTimeout && cfg.onError && retryCount < cfg.reconnectRetries {
        op := SlotExecError(cfg, now);
      } else if e == BrokenConnection && cfg.onBroken && retryCount < cfg.reconnectRetries {
        op := SlotExecBroken();
      } else {
        op := SlotExecDelay();
      }
    }
  }

  /** `slotStatusChanged` for the item at `i`. */
  function Changed(cfg: Settings, m: Main, i: nat, op: Operation): Main
    requires i < |m.items|
  {
    match op
    case OpFinished =>
      var left := if cfg.removeOnSuccess then Delete(m, i) else m.(items := m.items[i := m.items[i].(mode := NoMode)]);
      CheckQueue(cfg, left)
    case OpRemoved => Delete(m, i)
    case OpScheduled => TransferTimeout(cfg, m)
    case OpNothing => m
    case _ => CheckQueue(cfg, m)
  }

  /** The item as the slot for a report leaves it. */
  function Posted(cfg: Settings, it: Item, r: Report, offline: bool, now: int): Item {
    match r
    case JobFailed(e) => AfterFailure(cfg, it, e, now)
    case JobFinished => Done(it)
    case IsConnected => ExecConnected(cfg, it, offline)
    case IsScheduled => ExecSchedule(it)
    case IsPaused => ExecDelay(it)
    case IsDelayed => ExecDelay(it)
    case _ => it
  }

  /** What that slot tells the main window. */
  function Emitted(cfg: Settings, it: Item, r: Report, offline: bool, now: int): Operation {
    match r
    case JobFailed(e) => FailureOp(it, AfterFailure(cfg, it, e, now))
    case JobFinished => OpFinished
    case IsConnected => ConnectedOp(cfg, it, offline)
    case IsScheduled => OpScheduled
    case IsPaused => OpPaused
    case IsDelayed => OpDelayed
    case IsResumed => OpResumed
    case IsRemoved => OpRemoved
  }

  lemma PostedKeeps(cfg: Settings, m: Main, i: nat, r: Report)
    requires SchedulerLimit.Inv(cfg, m) && i < |m.items| && (r == IsConnected ==> Active(m.items[i]))
    ensures SchedulerLimit.Inv(cfg, m.(items := m.items[i := Posted(cfg, m.items[i], r, m.Offline(), m.now)]))
  {
    assert GoodItem(m.items[i]);
    ReplaceKeeps(cfg, m, i, Posted(cfg, m.items[i], r, m.Offline(), m.now));
  }

  /** The item's slot and the main window's reaction make up the step of the
      machine. */
  lemma PostedThenChanged(cfg: Settings, m: Main, i: nat, r: Report)
    requires i < |m.items|
    ensures var it := m.items[i];
            var mid := m.(items := m.items[i := Posted(cfg, it, r, m.Offline(), m.now)]);
            OnReport(cfg, m, i, r) == Changed(cfg, mid, i, Emitted(cfg, it, r, m.Offline(), m.now))
  {
    var it := m.items[i];
    assert m.items[i := it] == m.items;
    var done := m.items[i := Done(it)];
    assert done[..i] == m.items[..i] && done[i + 1..] == m.items[i + 1..];
    assert done[i := done[i].(mode := NoMode)] == done;
  }

  /** The list and the number of active transfers when the resuming loop of
      `checkQueue` has reached `i`. */
  function ResumeUpTo(cfg: Settings, items: seq<Item>, i: nat): (r: (seq<Item>, nat))
    requires i <= |items|
    ensures |r.0| == |items| && forall k | i <= k < |items| :: r.0[k] == items[k]
  {
    if i == 0 then (items, ActiveCount(items))
    else
      var p := ResumeUpTo(cfg, items, i - 1);
      if p.1 < cfg.limit && Eligible(items[i - 1])
      then (p.0[i - 1 := Resume(cfg, items[i - 1])], p.1 + 1) else p
  }

  lemma {:induction false} ResumeUpToIs(cfg: Settings, items: seq<Item>, i: nat)
    requires i <= |items|
    ensures var r := ResumeUpTo(cfg, items, i);
            && r.1 == ActiveCount(items) + Min(EligibleCount(items[..i]), Free(cfg, items))
            && forall k | 0 <= k < i :: r.0[k] == StartQueued(cfg, items)[k]
  {
    if i > 0 {
      ResumeUpToIs(cfg, items, i - 1);
      EligiblePrefix(items, i - 1);
    }
  }

  lemma {:induction false} LimitReached(cfg: Settings, items: seq<Item>, i: nat, n: nat)
    requires i <= n <= |items| && (i == n || cfg.limit <= ResumeUpTo(cfg, items, i).1)
    ensures ResumeUpTo(cfg, items, n) == ResumeUpTo(cfg, items, i)
  {
    if i < n {
      LimitReached(cfg, items, i, n - 1);
    }
  }

  /** Leaving the loop when the limit is reached starts the same transfers as
      giving the free slots away in list order. */
  lemma LoopStartsQueued(cfg: Settings, items: seq<Item>, i: nat)
    requires i <= |items| && (i == |items| || cfg.limit <= ResumeUpTo(cfg, items, i).1)
    ensures ResumeUpTo(cfg, items, i).0 == StartQueued(cfg, items)
  {
    LimitReached(cfg, items, i, |items|);
    ResumeUpToIs(cfg, items, |items|);
  }

  predicate Target(e: Event, i: nat) {
    match e
    case UserPause(k) => k == i
    case UserQueue(k) => k == i
    case UserSchedule(k) => k == i
    case UserDelay(k) => k == i
    case UserRemove(k) => k == i
    case _ => false
  }

  function Requested(it: Item, e: Event, now: int): Item {
    match e
    case UserPause(_) => RequestPause(it)
    case UserQueue(_) => Queue(it)
    case UserSchedule(_) => RequestSchedule(it, now)
    case UserDelay(_) => RequestDelay(it)
    case UserRemove(_) => if it.status == Running then Op(it, Command.Remove) else it
    case _ => it
  }

  function RequestOp(it: Item, e: Event): Operation {
    match e
    case UserQueue(_) => OpQueued
    case UserSchedule(_) => if it.status == Running then OpNothing else OpScheduled
    case UserDelay(_) => if it.status == Running then OpNothing else OpDelayed
    case UserRemove(_) => if it.status == Running then OpNothing else OpRemoved
    case _ => OpNothing
  }

  lemma RequestedThenChanged(cfg: Settings, m: Main, i: nat, e: Event)
    requires SchedulerLimit.Inv(cfg, m) && i < |m.items| && Target(e, i) && Allowed(m, e)
    ensures var it := m.items[i];
            var end := Changed(cfg, m.(items := m.items[i := Requested(it, e, m.now)]), i, RequestOp(it, e));
            OnUser(cfg, m, e) == if e.UserRemove? then CheckQueue(cfg, end) else end
  {
    assert m.items[i := m.items[i]] == m.items;
  }

  lemma RequestedKeeps(cfg: Settings, m: Main, i: nat, e: Event)
    requires SchedulerLimit.Inv(cfg, m) && i < |m.items| && Target(e, i) && Allowed(m, e)
    ensures SchedulerLimit.Inv(cfg, m.(items := m.items[i := Requested(m.items[i], e, m.now)]))
  {
    assert GoodItem(m.items[i]);
    ReplaceKeeps(cfg, m, i, Requested(m.items[i], e, m.now));
  }

  lemma {:induction false} AllowedPrefix(cfg: Settings, m: Main, events: seq<Event>, i: nat)
    requires AllAllowed(cfg, m, events) && i < |events|
    ensures Allowed(Run(cfg, m, events[..i]), events[i])
    decreases |events|
  {
    if i < |events| - 1 {
      var init := events[..|events| - 1];
      AllowedPrefix(cfg, m, init, i);
      assert init[..i] == events[..i];
    }
  }

  lemma RunNext(cfg: Settings, m: Main, events: seq<Event>, i: nat)
    requires i < |events|
    ensures Run(cfg, m, events[..i + 1]) == Step(cfg, Run(cfg, m, events[..i]), events[i])
  {
    assert events[..i + 1][..i] == events[..i];
  }

  class KMainWidget {
    const cfg: Settings
    var list: seq<Transfer>
    var offlineMode: bool
    var connected: bool
    var offline: bool
    var now: int
    /** What the transfers in the list look like. */
    ghost var Items: seq<Item>
    /** Every transfer that was ever in the list. */
    ghost var Owned: set<Transfer>

    constructor (cfg: Settings, connected: bool, now: int)
      ensures Valid() && fresh(Owned) && this.cfg == cfg && Abs() == Main([], false, connected, now)
    {
      this.cfg := cfg;
      list, Items, Owned := [], [], {};
      offlineMode, this.connected, offline := false, connected, !connected;
      this.now := now;
    }

    ghost predicate Valid()
      reads this, Owned
    {
      && offline == (offlineMode || !connected)
      && Distinct(list)
      && |list| == |Items|
      && forall i | 0 <= i < |list| :: list[i] in Owned && list[i].View() == Items[i]
    }

    ghost function Abs(): Main
      reads this
    {
      Main(Items, offlineMode, connected, now)
    }

    // ----- one transfer at a time

    method ResumeIfWaiting(i: nat) returns (started: bool)
      requires Valid() && i < |list| && GoodItem(Items[i])
      modifies this`Items, list[i]
      ensures Valid() && started == Eligible(old(Items)[i])
      ensures Items == if started then old(Items)[i := Resume(cfg, old(Items)[i])] else old(Items)
    {
      DistinctAt(list, i);
      var item := list[i];
      started := false;
      if item.status != Running && item.status != Trying && (item.mode == Queued || item.mode == New) {
        item.SlotResume(cfg);
        started := true;
        Items := Items[i := item.View()];
      }
    }

    method CheckCacheIfNew(i: nat)
      requires Valid() && i < |list|
      modifies this`Items, list[i]
      ensures Valid() && Items == old(Items)[i := CheckOne(cfg, old(Items)[i])]
    {
      DistinctAt(list, i);
      var item := list[i];
      if item.mode == New && item.status == Stopped {
        item.LookIntoCache(cfg);
      }
      Items := Items[i := item.View()];
    }

    method QueueIfDue(i: nat) returns (due: bool)
      requires Valid() && i < |list|
      modifies this`Items, list[i]
      ensures Valid() && due == Due(old(Items)[i], now)
      ensures Items == old(Items)[i := if due then old(Items)[i].(mode := Queued) else old(Items)[i]]
    {
      DistinctAt(list, i);
      var item := list[i];
      due := item.mode == Scheduled && item.startTime <= now;
      if due {
        item.mode := Queued;
      }
      Items := Items[i := item.View()];
    }

    method StopIfActive(i: nat)
      requires Valid() && offline && i < |list|
      modifies this`Items, list[i]
      ensures Valid() && Items == old(Items)[i := if Active(old(Items)[i]) then Stop(old(Items)[i]) else old(Items)[i]]
    {
      DistinctAt(list, i);
      var item := list[i];
      if item.status == Trying || item.status == Running {
        item.SlotStop(offline);
      }
      Items := Items[i := item.View()];
    }

    // ----- the loops over the list

    method CountRunning() returns (numRun: nat)
      requires Valid()
      ensures numRun == ActiveCount(Items)
    {
      numRun := 0;
      var i := 0;
      while i < |list|
        invariant 0 <= i <= |list|
        invariant numRun == ActiveCount(Items[..i])
      {
        ActivePrefix(Items, i);
        if list[i].status == Running || list[i].status == Trying {
          numRun := numRun + 1;
        }
        i := i + 1;
      }
      assert Items[..i] == Items;
    }

    /** Resumes waiting transfers until the limit is reached. */
    method ResumeWaiting()
      requires Valid() && AllGood(Items)
      modifies this`Items, Owned
      ensures Valid() && Items == StartQueued(cfg, old(Items))
    {
      ghost var was := Items;
      var numRun := CountRunning();
      var i := 0;
      ghost var reached := ResumeUpTo(cfg, was, 0);
      while i < |list| && numRun < cfg.limit
        invariant 0 <= i <= |list| == |was| && Valid()
        invariant reached == ResumeUpTo(cfg, was, i) == (Items, numRun)
      {
        assert GoodItem(was[i]);
        var started := ResumeIfWaiting(i);
        if started {
          numRun := numRun + 1;
        }
        i := i + 1;
        reached := ResumeUpTo(cfg, was, i);
      }
      LoopStartsQueued(cfg, was, i);
    }

    /** Lets new transfers look into the cache. */
    method CheckNewOnes()
      requires Valid()
      modifies this`Items, Owned
      ensures Valid() && Items == CheckNew(cfg, old(Items))
    {
      ghost var was := Items;
      var i := 0;
      while i < |list|
        invariant 0 <= i <= |list| == |was| && Valid()
        invariant forall k | 0 <= k < i :: Items[k] == CheckOne(cfg, was[k])
        invariant forall k | i <= k < |list| :: Items[k] == was[k]
      {
        CheckCacheIfNew(i);
        i := i + 1;
      }
    }

    method QueueDueOnes() returns (flag: bool)
      requires Valid()
      modifies this`Items, Owned
      ensures Valid() && Items == QueueDue(old(Items), now) && (flag <==> AnyDue(old(Items), now))
    {
      ghost var was := Items;
      flag := false;
      var i := 0;
      while i < |list|
        invariant 0 <= i <= |list| == |was| && Valid()
        invariant flag <==> exists k | 0 <= k < i :: Due(was[k], now)
        invariant forall k | 0 <= k < i :: Items[k] == if Due(was[k], now) then was[k].(mode := Queued) else was[k]
        invariant forall k | i <= k < |list| :: Items[k] == was[k]
      {
        var due := QueueIfDue(i);
        flag := flag || due;
        i := i + 1;
      }
    }

    method StopEach()
      requires Valid() && offline
      modifies this`Items, Owned
      ensures Valid() && Items == StopAll(old(Items))
    {
      ghost var was := Items;
      var i := 0;
      while i < |list|
        invariant 0 <= i <= |list| == |was| && Valid()
        invariant forall k | 0 <= k < i :: Items[k] == if Active(was[k]) then Stop(was[k]) else was[k]
        invariant forall k | i <= k < |list| :: Items[k] == was[k]
      {
        StopIfActive(i);
        i := i + 1;
      }
    }

    // ----- the slots

    method CheckQueue()
      requires Valid() && AllGood(Items)
      modifies this`Items, Owned
      ensures Valid() && Abs() == Scheduler.CheckQueue(cfg, old(Abs()))
    {
      if !offline {
        ResumeWaiting();
      }
      CheckNewOnes();
    }

    method SlotTransferTimeout()
      requires Valid() && AllGood(Items)
      modifies this`Items, Owned
      ensures Valid() && Abs() == TransferTimeout(cfg, old(Abs()))
    {
      QueueDueKeeps(Items, now);
      var flag := QueueDueOnes();
      if flag {
        CheckQueue();
      }
    }

    method SlotToggleOfflineMode()
      requires Valid() && SchedulerLimit.Inv(cfg, Abs())
      modifies this`offlineMode, this`offline, this`Items, Owned
      ensures Valid() && Abs() == ToggleOffline(cfg, old(Abs()))
    {
      StopAllKeeps(cfg, Abs());
      offlineMode := !offlineMode;
      offline := offlineMode || !connected;
      if offline {
        StopEach();
      }
      CheckQueue();
    }

    method SlotCheckConnection(up: bool)
      requires Valid() && SchedulerLimit.Inv(cfg, Abs())
      modifies this`connected, this`offline, this`Items, Owned
      ensures Valid() && Abs() == CheckConnection(cfg, old(Abs()), up)
    {
      var before := connected;
      connected := up;
      if connected != before {
        if connected {
          offline := offlineMode;
          CheckQueue();
        } else {
          offline := true;
          StopEach();
        }
      }
    }

    /** `delete item`: the transfer leaves the list. */
    method DeleteItem(item: Transfer, ghost i: nat)
      requires Valid() && i < |list| && list[i] == item
      modifies this`list, this`Items
      ensures Valid() && Abs() == Delete(old(Abs()), i)
    {
      DistinctAt(list, i);
      DistinctWithout(list, i);
      var k := 0;
      while list[k] != item
        invariant 0 <= k <= i
        decreases i - k
      {
        k := k + 1;
      }
      assert k == i;
      list := list[..k] + list[k + 1..];
      Items := Items[..i] + Items[i + 1..];
    }

    method ClearMode(item: Transfer, ghost i: nat)
      requires Valid() && i < |list| && list[i] == item
      modifies this`Items, item
      ensures Valid() && Items == old(Items)[i := old(Items)[i].(mode := NoMode)]
    {
      DistinctAt(list, i);
      item.mode := NoMode;
      Items := Items[i := item.View()];
    }

    method AfterFinish(item: Transfer, ghost i: nat)
      requires Valid() && SchedulerLimit.Inv(cfg, Abs())
      requires i < |list| && list[i] == item && item.status == Finished
      modifies this`list, this`Items, Owned
      ensures Valid() && Abs() == Changed(cfg, old(Abs()), i, OpFinished)
    {
      ghost var m := Abs();
      if cfg.removeOnSuccess {
        DeleteKeeps(cfg, m, i);
        DeleteItem(item, i);
      } else {
        assert GoodItem(m.items[i]);
        ReplaceKeeps(cfg, m, i, m.items[i].(mode := NoMode));
        ClearMode(item, i);
      }
      CheckQueue();
    }

    method SlotStatusChanged(item: Transfer, op: Operation, ghost i: nat)
      requires Valid() && SchedulerLimit.Inv(cfg, Abs())
      requires i < |list| && list[i] == item && (op == OpFinished ==> item.status == Finished)
      modifies this`list, this`Items, Owned
      ensures Valid() && Abs() == Changed(cfg, old(Abs()), i, op)
    {
      match op
      case OpFinished => AfterFinish(item, i);
      case OpRemoved => DeleteItem(item, i);
      case OpScheduled => SlotTransferTimeout();
      case OpNothing =>
      case _ => CheckQueue();
    }

    /** The slot that a report is delivered to. */
    method Deliver(item: Transfer, r: Report, ghost i: nat) returns (op: Operation)
      requires Valid() && i < |list| && list[i] == item
      modifies this`Items, item
      ensures Valid() && Items == old(Items)[i := Posted(cfg, old(Items)[i], r, offline, now)]
      ensures op == Emitted(cfg, old(Items)[i], r, offline, now)
    {
      DistinctAt(list, i);
      match r {
        case JobFailed(e) => op := item.SlotJobFailed(cfg, e, now);
        case JobFinished => op := item.SlotFinished();
        case IsConnected => op := item.SlotExecConnected(cfg, offline);
        case IsResumed => op := OpResumed;
        case IsPaused => op := item.SlotExecPause();
        case IsScheduled => op := item.SlotExecSchedule();
        case IsDelayed => op := item.SlotExecDelay();
        case IsRemoved => op := OpRemoved;
      }
      Items := Items[i := item.View()];
    }

    method CustomEvent(item: Transfer, r: Report, ghost i: nat)
      requires Valid() && SchedulerLimit.Inv(cfg, Abs()) && i < |list| && list[i] == item
      requires r == IsConnected ==> Active(Items[i])
      modifies this`list, this`Items, Owned
      ensures Valid() && Abs() == OnReport(cfg, old(Abs()), i, r)
    {
      ghost var m := Abs();
      PostedKeeps(cfg, m, i, r);
      PostedThenChanged(cfg, m, i, r);
      var op := Deliver(item, r, i);
      SlotStatusChanged(item, op, i);
    }

    method Request(item: Transfer, e: Event, ghost i: nat) returns (op: Operation)
      requires Valid() && i < |list| && list[i] == item
      requires Allowed(Abs(), e) && Target(e, i)
      modifies this`Items, item
      ensures Valid() && Items == old(Items)[i := Requested(old(Items)[i], e, now)]
      ensures op == RequestOp(old(Items)[i], e)
    {
      DistinctAt(list, i);
      match e {
        case UserPause(_) => item.SlotRequestPause(); op := OpNothing;
        case UserQueue(_) => op := item.SlotQueue();
        case UserSchedule(_) => op := item.SlotRequestSchedule(now);
        case UserDelay(_) => op := item.SlotRequestDelay();
        case UserRemove(_) => op := item.SlotRequestRemove();
      }
      Items := Items[i := item.View()];
    }

    /** An entry of the menus, for the transfer at `i`; after deletions
        `checkQueue` runs once more. */
    method OnUserAction(item: Transfer, e: Event, ghost i: nat)
      requires Valid() && SchedulerLimit.Inv(cfg, Abs()) && i < |list| && list[i] == item
      requires Allowed(Abs(), e) && Target(e, i)
      modifies this`list, this`Items, Owned
      ensures Valid() && Abs() == OnUser(cfg, old(Abs()), e)
    {
      ghost var m := Abs();
      RequestedKeeps(cfg, m, i, e);
      RequestedThenChanged(cfg, m, i, e);
      var op := Request(item, e, i);
      if e.UserRemove? {
        AfterRemove(item, op, i);
      } else {
        SlotStatusChanged(item, op, i);
      }
    }

    method AfterRemove(item: Transfer, op: Operation, ghost i: nat)
      requires Valid() && SchedulerLimit.Inv(cfg, Abs()) && i < |list| && list[i] == item
      requires op == OpRemoved || op == OpNothing
      modifies this`list, this`Items, Owned
      ensures Valid() && Abs() == Scheduler.CheckQueue(cfg, Changed(cfg, old(Abs()), i, op))
    {
      DeleteKeeps(cfg, Abs(), i);
      SlotStatusChanged(item, op, i);
      CheckQueue();
    }

    method AddTransfer(http: bool)
      requires Valid() && SchedulerLimit.Inv(cfg, Abs())
      modifies this`list, this`Items, this`Owned, Owned
      ensures Valid() && Abs() == Step(cfg, old(Abs()), Add(http)) && fresh(Owned - old(Owned))
    {
      AddKeeps(cfg, Abs(), http);
      AppendItem(http);
      CheckQueue();
    }

    method AppendItem(http: bool)
      requires Valid()
      modifies this`list, this`Items, this`Owned
      ensures Valid() && Items == old(Items) + [NewItem(http, now)]
      ensures fresh(Owned - old(Owned)) && old(Owned) <= Owned
    {
      var item := new Transfer(http, now);
      assert (list + [item])[..|list|] == list;
      list, Items, Owned := list + [item], Items + [item.View()], Owned + {item};
    }

    method Tick(now: int)
      requires Valid() && SchedulerLimit.Inv(cfg, Abs())
      modifies this`now, this`Items, Owned
      ensures Valid() && Abs() == Step(cfg, old(Abs()), Clock(now))
    {
      this.now := now;
      SlotTransferTimeout();
    }

    /** One event of a session; those about transfers that are gone do nothing. */
    method Dispatch(e: Event)
      requires Valid() && SchedulerLimit.Inv(cfg, Abs()) && Allowed(Abs(), e)
      modifies this, Owned
      ensures Valid() && Abs() == Step(cfg, old(Abs()), e) && SchedulerLimit.Inv(cfg, Abs())
      ensures fresh(Owned - old(Owned))
    {
      StepKeeps(cfg, Abs(), e);
      match e
      case Add(http) => AddTransfer(http);
      case Slave(i, r) => if i < |list| { CustomEvent(list[i], r, i); }
      case Clock(t) => Tick(t);
      case Toggle => SlotToggleOfflineMode();
      case Connection(up) => SlotCheckConnection(up);
      case UserPause(i) => if i < |list| { OnUserAction(list[i], e, i); }
      case UserQueue(i) => if i < |list| { OnUserAction(list[i], e, i); }
      case UserSchedule(i) => if i < |list| { OnUserAction(list[i], e, i); }
      case UserDelay(i) => if i < |list| { OnUserAction(list[i], e, i); }
      case UserRemove(i) => if i < |list| { OnUserAction(list[i], e, i); }
    }

    method Session(events: seq<Event>)
      requires Valid() && SchedulerLimit.Inv(cfg, Abs()) && AllAllowed(cfg, Abs(), events)
      modifies this, Owned
      ensures Valid() && SchedulerLimit.Inv(cfg, Abs()) && Abs() == Run(cfg, old(Abs()), events)
    {
      ghost var start := Abs();
      var i := 0;
      while i < |events|
        invariant 0 <= i <= |events|
        invariant Valid() && SchedulerLimit.Inv(cfg, Abs()) && Abs() == Run(cfg, start, events[..i])
        invariant fresh(Owned - old(Owned))
      {
        AllowedPrefix(cfg, start, events, i);
        RunNext(cfg, start, events, i);
        Dispatch(events[i]);
        i := i + 1;
      }
      assert events[..i] == events;
    }
  }

  /** A whole session of kget from its start: the limit on connections holds at
      the end, and no assertion of the transfers' slots failed on the way.  The
      slaves have one of their own, see module SlaveClash. */
  method RunKGet(cfg: Settings, connected: bool, now: int, events: seq<Event>) returns (main: KMainWidget)
    requires AllAllowed(cfg, Main([], false, connected, now), events)
    ensures main.Valid() && main.Abs() == Run(cfg, Main([], false, connected, now), events)
    ensures BusyCount(main.Abs().items) <= cfg.limit
  {
    main := new KMainWidget(cfg, connected, now);
    main.Session(events);
  }
}
