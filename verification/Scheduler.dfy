/** The transfer scheduler of kget (kget/kmainwidget.cpp, kget/transfer.cpp) as
    a machine on values: one function per slot, one event per report of a
    download job, clock tick, user action or change of the connection. */
module Scheduler {

  datatype Status = Trying | Running | Stopped | Finished

  datatype Mode = Queued | Delayed | Scheduled | NoMode | New

  datatype Command =
    | Retr | RetrCache | Pause | Restart | Abort | Delay | Schedule | Remove | Kill | Noop

  /** `issued` are the commands given to the item's slave.  `attempts` counts
      calls of `slotResume`; `failed` tells whether one of the item's assertions
      did not hold. */
  datatype Item = Item(
    status: Status, mode: Mode, retryCount: nat, startTime: int, http: bool,
    issued: seq<Command>, attempts: nat, failed: bool)

  datatype Settings = Settings(
    limit: nat, reconnectRetries: nat, reconnectTime: int,
    onError: bool, onBroken: bool, addQueued: bool, removeOnSuccess: bool)

  datatype Main = Main(items: seq<Item>, offlineMode: bool, connected: bool, now: int) {
    predicate Offline() {
      offlineMode || !connected
    }
  }

  // ----- the slots of one transfer

  function NewItem(http: bool, now: int): Item {
    Item(Stopped, New, 0, now, http, [], 0, false)
  }

  predicate Active(it: Item) {
    it.status == Running || it.status == Trying
  }

  function Op(it: Item, c: Command): Item {
    it.(issued := it.issued + [c])
  }

  function NextRetry(cfg: Settings, retryCount: nat): nat {
    if retryCount + 1 > cfg.reconnectRetries then 1 else retryCount + 1
  }

  function Resume(cfg: Settings, it: Item): Item {
    Op(it, Retr).(status := Trying, mode := Queued, retryCount := NextRetry(cfg, it.retryCount),
                  attempts := it.attempts + 1, failed := it.failed || it.status != Stopped)
  }

  /** Going offline. */
  function Stop(it: Item): Item {
    Op(it, Kill).(status := Stopped, mode := Queued, failed := it.failed || !Active(it))
  }

  function RequestPause(it: Item): Item {
    Op(it, Pause).(failed := it.failed || !Active(it))
  }

  function Queue(it: Item): Item {
    it.(mode := Queued, failed := it.failed || it.mode == Queued)
  }

  /** A start time that has passed is moved to a minute from now. */
  function RequestSchedule(it: Item, now: int): Item {
    var timed := it.(startTime := if it.startTime < now then now + 60 else it.startTime,
                     failed := it.failed || it.mode == Scheduled);
    if it.status == Running then Op(timed, Schedule) else ExecSchedule(timed)
  }

  function RequestDelay(it: Item): Item {
    var checked := it.(failed := it.failed || it.mode == Delayed);
    if it.status == Running then Op(checked, Command.Delay) else ExecDelay(checked)
  }

  function Done(it: Item): Item {
    it.(status := Finished, mode := NoMode)
  }

  function ExecDelay(it: Item): Item {
    it.(status := Stopped, mode := Delayed)
  }

  function ExecSchedule(it: Item): Item {
    it.(status := Stopped, mode := Scheduled)
  }

  function ExecError(cfg: Settings, it: Item, now: int): Item {
    it.(status := Stopped, mode := Scheduled, startTime := now + cfg.reconnectTime * 60)
  }

  function ExecBroken(it: Item): Item {
    it.(status := Stopped, mode := Queued)
  }

  function AddMode(cfg: Settings): Mode {
    if cfg.addQueued then Queued else Delayed
  }

  function ExecConnected(cfg: Settings, it: Item, offline: bool): Item {
    if it.mode != New then it.(status := Running)
    else if offline then it
    else Op(it, Kill).(status := Stopped, mode := AddMode(cfg))
  }

  function NotInCache(cfg: Settings, it: Item): Item {
    it.(status := Stopped, mode := AddMode(cfg))
  }

  function CheckCache(cfg: Settings, it: Item): Item {
    if it.http then Op(it, RetrCache).(status := Trying) else NotInCache(cfg, it)
  }

  predicate RetryOnError(cfg: Settings, it: Item) {
    cfg.onError && it.retryCount < cfg.reconnectRetries
  }

  predicate RetryOnBroken(cfg: Settings, it: Item) {
    cfg.onBroken && it.retryCount < cfg.reconnectRetries
  }

  datatype JobError = LoginOrTimeout | BrokenConnection | OtherError

  /** `slotResult` of the slave and the slot its message leads to. */
  function AfterFailure(cfg: Settings, it: Item, e: JobError, now: int): Item {
    if it.mode == New then NotInCache(cfg, it)
    else if e == LoginOrTimeout && RetryOnError(cfg, it) then ExecError(cfg, it, now)
    else if e == BrokenConnection && RetryOnBroken(cfg, it) then ExecBroken(it)
    else ExecDelay(it)
  }

  // ----- the main window's slots

  function ActiveCount(items: seq<Item>): nat {
    if items == [] then 0
    else ActiveCount(items[..|items| - 1]) + if Active(items[|items| - 1]) then 1 else 0
  }

  /** Waiting to be started. */
  predicate Eligible(it: Item) {
    !Active(it) && (it.mode == Queued || it.mode == New)
  }

  function EligibleCount(items: seq<Item>): nat {
    if items == [] then 0
    else EligibleCount(items[..|items| - 1]) + if Eligible(items[|items| - 1]) then 1 else 0
  }

  /** Does `checkQueue` start the item at `i`?  Only the free slots are given
      away, to waiting items in list order. */
  predicate Starts(cfg: Settings, items: seq<Item>, i: nat)
    requires i < |items|
  {
    Eligible(items[i]) && ActiveCount(items) + EligibleCount(items[..i]) < cfg.limit
  }

  function StartQueued(cfg: Settings, items: seq<Item>): (r: seq<Item>)
    ensures |r| == |items|
  {
    seq(|items|, i requires 0 <= i < |items| =>
      if Starts(cfg, items, i) then Resume(cfg, items[i]) else items[i])
  }

  function CheckOne(cfg: Settings, it: Item): Item {
    if it.mode == New && it.status == Stopped then CheckCache(cfg, it) else it
  }

  function CheckNew(cfg: Settings, items: seq<Item>): (r: seq<Item>)
    ensures |r| == |items|
  {
    seq(|items|, i requires 0 <= i < |items| => CheckOne(cfg, items[i]))
  }

  function CheckQueue(cfg: Settings, m: Main): Main {
    m.(items := CheckNew(cfg, if m.Offline() then m.items else StartQueued(cfg, m.items)))
  }

  predicate Due(it: Item, now: int) {
    it.mode == Scheduled && it.startTime <= now
  }

  function QueueDue(items: seq<Item>, now: int): (r: seq<Item>)
    ensures |r| == |items|
  {
    seq(|items|, i requires 0 <= i < |items| => if Due(items[i], now) then items[i].(mode := Queued) else items[i])
  }

  predicate AnyDue(items: seq<Item>, now: int) {
    exists i | 0 <= i < |items| :: Due(items[i], now)
  }

  function TransferTimeout(cfg: Settings, m: Main): Main {
    var queued := m.(items := QueueDue(m.items, m.now));
    if AnyDue(m.items, m.now) then CheckQueue(cfg, queued) else queued
  }

  function StopAll(items: seq<Item>): (r: seq<Item>)
    ensures |r| == |items|
  {
    seq(|items|, i requires 0 <= i < |items| => if Active(items[i]) then Stop(items[i]) else items[i])
  }

  function ToggleOffline(cfg: Settings, m: Main): Main {
    var t := m.(offlineMode := !m.offlineMode);
    CheckQueue(cfg, if t.Offline() then t.(items := StopAll(t.items)) else t)
  }

  function CheckConnection(cfg: Settings, m: Main, connected: bool): Main {
    if connected == m.connected then m
    else
      var t := m.(connected := connected);
      if connected then CheckQueue(cfg, t) else t.(items := StopAll(t.items))
  }

  // ----- events

  /** What a slave posts; JobFailed stands for a result with an error. */
  datatype Report =
    | JobFailed(error: JobError) | JobFinished | IsConnected | IsResumed
    | IsPaused | IsScheduled | IsDelayed | IsRemoved

  datatype Event =
    | Add(http: bool)
    | Slave(i: nat, report: Report)
    | Clock(now: int)
    | Toggle
    | Connection(up: bool)
    | UserPause(i: nat) | UserQueue(i: nat) | UserSchedule(i: nat) | UserDelay(i: nat) | UserRemove(i: nat)

  /** The item replaced, then the main window's reaction. */
  function ReplaceAndCheck(cfg: Settings, m: Main, i: nat, it: Item): Main
    requires i < |m.items|
  {
    CheckQueue(cfg, m.(items := m.items[i := it]))
  }

  function ReplaceAndTime(cfg: Settings, m: Main, i: nat, it: Item): Main
    requires i < |m.items|
  {
    TransferTimeout(cfg, m.(items := m.items[i := it]))
  }

  function Delete(m: Main, i: nat): Main
    requires i < |m.items|
  {
    m.(items := m.items[..i] + m.items[i + 1..])
  }

  function OnReport(cfg: Settings, m: Main, i: nat, r: Report): Main
    requires i < |m.items|
  {
    var it := m.items[i];
    match r
    case JobFailed(e) =>
      var next := AfterFailure(cfg, it, e, m.now);
      if it.mode == New then m.(items := m.items[i := next])
      else if next.mode == Scheduled then ReplaceAndTime(cfg, m, i, next)
      else ReplaceAndCheck(cfg, m, i, next)
    case JobFinished =>
      if cfg.removeOnSuccess then CheckQueue(cfg, Delete(m, i)) else ReplaceAndCheck(cfg, m, i, Done(it))
    case IsConnected =>
      if it.mode == New && m.Offline() then m
      else ReplaceAndCheck(cfg, m, i, ExecConnected(cfg, it, m.Offline()))
    case IsResumed => CheckQueue(cfg, m)
    case IsPaused => ReplaceAndCheck(cfg, m, i, ExecDelay(it))
    case IsScheduled => ReplaceAndTime(cfg, m, i, ExecSchedule(it))
    case IsDelayed => ReplaceAndCheck(cfg, m, i, ExecDelay(it))
    case IsRemoved => Delete(m, i)
  }

  function OnUser(cfg: Settings, m: Main, e: Event): Main {
    match e
    case UserPause(i) => if i < |m.items| then m.(items := m.items[i := RequestPause(m.items[i])]) else m
    case UserQueue(i) => if i < |m.items| then ReplaceAndCheck(cfg, m, i, Queue(m.items[i])) else m
    case UserSchedule(i) =>
      if i >= |m.items| then m
      else
        var next := RequestSchedule(m.items[i], m.now);
        if m.items[i].status == Running then m.(items := m.items[i := next])
        else ReplaceAndTime(cfg, m, i, next)
    case UserDelay(i) =>
      if i >= |m.items| then m
      else
        var next := RequestDelay(m.items[i]);
        if m.items[i].status == Running then m.(items := m.items[i := next])
        else ReplaceAndCheck(cfg, m, i, next)
    case UserRemove(i) =>
      if i >= |m.items| then m
      else if m.items[i].status == Running
      then CheckQueue(cfg, m.(items := m.items[i := Op(m.items[i], Command.Remove)]))
      else CheckQueue(cfg, Delete(m, i))
    case _ => m
  }

  function Step(cfg: Settings, m: Main, e: Event): Main {
    match e
    case Add(http) => CheckQueue(cfg, m.(items := m.items + [NewItem(http, m.now)]))
    case Slave(i, r) => if i < |m.items| then OnReport(cfg, m, i, r) else m
    case Clock(now) => TransferTimeout(cfg, m.(now := now))
    case Toggle => ToggleOffline(cfg, m)
    case Connection(up) => CheckConnection(cfg, m, up)
    case _ => OnUser(cfg, m, e)
  }

  /** Does the event obey what the user interface and a well-behaved slave
      guarantee?  Only active items report a connection or can be paused; the
      action for an item's present mode does nothing; Queue is not offered for
      finished items, nor used during the cache check. */
  predicate Allowed(m: Main, e: Event) {
    match e
    case Slave(i, IsConnected) => i < |m.items| ==> Active(m.items[i])
    case UserQueue(i) =>
      i < |m.items| ==> m.items[i].status != Finished && m.items[i].mode != Queued
                        && !(m.items[i].mode == New && Active(m.items[i]))
    case UserPause(i) => i < |m.items| ==> Active(m.items[i])
    case UserSchedule(i) => i < |m.items| ==> m.items[i].mode != Scheduled
    case UserDelay(i) => i < |m.items| ==> m.items[i].mode != Delayed
    case _ => true
  }

  function Run(cfg: Settings, m: Main, events: seq<Event>): Main {
    if events == [] then m else Step(cfg, Run(cfg, m, events[..|events| - 1]), events[|events| - 1])
  }

  ghost predicate AllAllowed(cfg: Settings, m: Main, events: seq<Event>) {
    events == [] || (AllAllowed(cfg, m, events[..|events| - 1])
                     && Allowed(Run(cfg, m, events[..|events| - 1]), events[|events| - 1]))
  }
}
