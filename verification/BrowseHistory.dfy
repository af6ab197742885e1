/** The bounded browse history of kdict (kdict/queryview.cpp) against the one a
    browser without a limit would keep. */
module BrowseHistory {

  datatype Entry = Entry(html: string, query: string, x: int, y: int)

  /** `pos` may turn negative here, where the source's unsigned number would
      wrap around. */
  datatype Browser = Browser(list: seq<Entry>, pos: int)

  /** What the user or the server does; `x` and `y` say how far the page is
      scrolled when it is left.  The limit may change between results. */
  datatype Event =
    | Result(html: string, query: string, max: nat, x: int, y: int)
    | Back(x: int, y: int)
    | Forward(x: int, y: int)
    | BackBy(index: nat, x: int, y: int)
    | ForwardBy(index: nat, x: int, y: int)

  ghost predicate InRange(b: Browser) {
    if b.list == [] then b.pos == 0 else 0 <= b.pos < |b.list|
  }

  // ----- the specification

  function SavePos(b: Browser, x: int, y: int): Browser {
    if 0 <= b.pos < |b.list| then b.(list := b.list[b.pos := b.list[b.pos].(x := x, y := y)]) else b
  }

  /** A result cuts off what lies ahead and becomes the last entry. */
  function Visit(b: Browser, html: string, query: string, x: int, y: int): Browser
    requires InRange(b)
  {
    if b.list == [] then Browser([Entry(html, query, 0, 0)], 0)
    else Browser(SavePos(b, x, y).list[..b.pos + 1] + [Entry(html, query, 0, 0)], b.pos + 1)
  }

  function Trim(b: Browser, max: nat): Browser
    decreases |b.list|
  {
    if |b.list| > max then Trim(Browser(b.list[1..], b.pos - 1), max) else b
  }

  /** The first result is not trimmed. */
  function ResultReady(b: Browser, html: string, query: string, max: nat, x: int, y: int): Browser
    requires InRange(b)
  {
    if b.list == [] then Visit(b, html, query, x, y) else Trim(Visit(b, html, query, x, y), max)
  }

  function MoveTo(b: Browser, pos: int, x: int, y: int): Browser {
    SavePos(b, x, y).(pos := pos)
  }

  /** Where a move leads; nowhere if it stays where it is. */
  function Target(b: Browser, e: Event): int {
    match e
    case Back(_, _) => b.pos - 1
    case Forward(_, _) => b.pos + 1
    case BackBy(i, _, _) => b.pos - i
    case ForwardBy(i, _, _) => b.pos + i
    case Result(_, _, _, _, _) => b.pos
  }

  /** Is the move allowed?  Going forward or back by an index looks at one bound
      only. */
  predicate Possible(b: Browser, e: Event) {
    match e
    case Back(_, _) => b.pos > 0
    case Forward(_, _) => b.pos + 1 < |b.list|
    case BackBy(_, _, _) => Target(b, e) >= 0
    case ForwardBy(_, _, _) => Target(b, e) < |b.list|
    case Result(_, _, _, _, _) => true
  }

  function Step(b: Browser, e: Event): Browser
    requires InRange(b)
  {
    match e
    case Result(h, q, max, x, y) => ResultReady(b, h, q, max, x, y)
    case _ => if b.list != [] && Possible(b, e) then MoveTo(b, Target(b, e), e.x, e.y) else b
  }

  /** The browser without a limit, taking only the moves that `b` takes. */
  function Unlimited(full: Browser, b: Browser, e: Event): Browser
    requires InRange(full)
  {
    match e
    case Result(h, q, _, x, y) => Visit(full, h, q, x, y)
    case _ => if b.list != [] && Possible(b, e) then MoveTo(full, Target(full, e), e.x, e.y) else full
  }

  // ----- the bounded list is a suffix

  /** `b` shows the last entries of `full`, and both stand at the same entry. */
  ghost predicate SuffixOf(b: Browser, full: Browser) {
    && InRange(b) && InRange(full)
    && |b.list| <= |full.list|
    && (b.list == [] <==> full.list == [])
    && b.list == full.list[|full.list| - |b.list|..]
    && full.pos - b.pos == |full.list| - |b.list|
  }

  lemma {:induction false} TrimSuffix(b: Browser, full: Browser, max: nat)
    requires SuffixOf(b, full) && b.list != [] && b.pos == |b.list| - 1 && 1 <= max
    ensures SuffixOf(Trim(b, max), full) && 1 <= |Trim(b, max).list|
    ensures |b.list| > max ==> |Trim(b, max).list| == max
    ensures |b.list| <= max ==> Trim(b, max) == b
    decreases |b.list|
  {
    if |b.list| > max {
      TrimSuffix(Browser(b.list[1..], b.pos - 1), full, max);
    }
  }

  lemma MoveSuffix(b: Browser, full: Browser, pos: int, x: int, y: int)
    requires SuffixOf(b, full) && 0 <= pos < |b.list|
    ensures SuffixOf(MoveTo(b, pos, x, y), MoveTo(full, pos + |full.list| - |b.list|, x, y))
  {
    var d := |full.list| - |b.list|;
    assert b.list[b.pos] == full.list[d + b.pos];
    var r, rf := MoveTo(b, pos, x, y), MoveTo(full, pos + d, x, y);
    assert forall k | 0 <= k < |r.list| :: r.list[k] == rf.list[d + k];
  }

  predicate LimitPositive(e: Event) {
    e.Result? ==> 1 <= e.max
  }

  lemma ResultSuffix(b: Browser, full: Browser, html: string, query: string, max: nat, x: int, y: int)
    requires SuffixOf(b, full) && 1 <= max
    ensures SuffixOf(ResultReady(b, html, query, max, x, y), Visit(full, html, query, x, y))
    ensures 1 <= |ResultReady(b, html, query, max, x, y).list| <= max
  {
    if b.list != [] {
      TrimSuffix(Visit(b, html, query, x, y), Visit(full, html, query, x, y), max);
    }
  }

  lemma StepSuffix(b: Browser, full: Browser, e: Event)
    requires SuffixOf(b, full) && LimitPositive(e)
    ensures SuffixOf(Step(b, e), Unlimited(full, b, e))
    ensures e.Result? ==> 1 <= |Step(b, e).list| <= e.max
  {
    match e
    case Result(h, q, max, x, y) => ResultSuffix(b, full, h, q, max, x, y);
    case _ => MoveStepSuffix(b, full, e);
  }

  lemma MoveStepSuffix(b: Browser, full: Browser, e: Event)
    requires SuffixOf(b, full) && !e.Result?
    ensures SuffixOf(Step(b, e), Unlimited(full, b, e))
  {
    if b.list != [] && Possible(b, e) {
      MoveSuffix(b, full, Target(b, e), e.x, e.y);
      assert Step(b, e) == MoveTo(b, Target(b, e), e.x, e.y);
      assert Unlimited(full, b, e) == MoveTo(full, Target(full, e), e.x, e.y);
      assert Target(full, e) - Target(b, e) == |full.list| - |b.list|;
    } else {
      assert Step(b, e) == b && Unlimited(full, b, e) == full;
    }
  }

  // ----- every run

  function Run(events: seq<Event>, n: nat): (r: (Browser, Browser))
    requires n <= |events| && forall i | 0 <= i < |events| :: LimitPositive(events[i])
    ensures SuffixOf(r.0, r.1)
  {
    if n == 0 then (Browser([], 0), Browser([], 0))
    else
      var p := Run(events, n - 1);
      StepSuffix(p.0, p.1, events[n - 1]);
      (Step(p.0, events[n - 1]), Unlimited(p.1, p.0, events[n - 1]))
  }

  /** In every run the bounded browser shows the entry the unlimited one shows,
      with as many entries ahead of it, and right after a result it keeps at most
      as many as the limit allows. */
  lemma SameEntry(events: seq<Event>, n: nat)
    requires n <= |events| && forall i | 0 <= i < |events| :: LimitPositive(events[i])
    ensures var (b, full) := Run(events, n);
            && (b.list != [] ==> b.list[b.pos] == full.list[full.pos])
            && |b.list| - b.pos == |full.list| - full.pos
            && (n > 0 && events[n - 1].Result? ==> |b.list| <= events[n - 1].max)
  {
    if n > 0 {
      var (b, full) := Run(events, n - 1);
      StepSuffix(b, full, events[n - 1]);
    }
  }

  /** Going forward is refused exactly where a browser without a limit refuses
      it; going back is refused in addition where the entry has been trimmed. */
  lemma RefusedIff(b: Browser, full: Browser, e: Event)
    requires SuffixOf(b, full) && !e.Result?
    ensures e.Forward? || e.ForwardBy? ==> (Possible(b, e) <==> Possible(full, e))
    ensures e.Back? || e.BackBy? ==>
              (Possible(b, e) <==> Possible(full, e) && Target(full, e) >= |full.list| - |b.list|)
  {
  }

  /** The position stays in range for every history exactly if the limit is not
      zero: with zero the source would count below zero. */
  lemma NoWrapIff(max: nat)
    ensures (forall b: Browser, h, q, x, y :: InRange(b) ==> InRange(ResultReady(b, h, q, max, x, y))) <==> 1 <= max
  {
    if max == 0 {
      var e := Entry("", "", 0, 0);
      var b := Browser([e], 0);
      var v := Visit(b, "", "", 0, 0);
      assert v == Browser([e, e], 1);
      assert Trim(Browser([e, e][1..], 0), 0) == Trim(Browser([e][1..], -1), 0);
      assert !InRange(ResultReady(b, "", "", max, 0, 0));
    } else {
      forall b: Browser, h, q, x, y | InRange(b) ensures InRange(ResultReady(b, h, q, max, x, y)) {
        StepSuffix(b, b, Result(h, q, max, x, y));
      }
    }
  }

  // ----- the object

  /** An `unsigned int` of the source. */
  newtype uint32 = x: int | 0 <= x < 0x1_0000_0000

  /** The spin box of the preferences offers limits from 1 to 100. */
  const MAX_LIMIT := 100

  class QueryView {
    var browseList: seq<Entry>
    var browsePos: uint32

    constructor ()
      ensures Valid() && Abs() == Browser([], 0)
    {
      browseList, browsePos := [], 0;
    }

    ghost predicate Valid()
      reads this
    {
      InRange(Abs()) && |browseList| <= MAX_LIMIT
    }

    ghost function Abs(): Browser
      reads this
    {
      Browser(browseList, browsePos as int)
    }

    method SaveCurrentResultPos(x: int, y: int)
      requires Valid()
      modifies this`browseList
      ensures Valid() && Abs() == SavePos(old(Abs()), x, y)
    {
      if browseList != [] {
        browseList := browseList[browsePos := browseList[browsePos].(x := x, y := y)];
      }
    }

    /** Cuts off the entries ahead. */
    method RemoveAhead()
      requires Valid() && browseList != []
      modifies this`browseList
      ensures browseList == old(browseList)[..browsePos as int + 1]
    {
      while |browseList| > browsePos as int + 1
        invariant browsePos as int + 1 <= |browseList| <= |old(browseList)|
        invariant browseList == old(browseList)[..|browseList|]
      {
        browseList := browseList[..|browseList| - 1];
      }
    }

    /** Drops the oldest entries; the position never wraps around. */
    method TrimToLimit(max: uint32)
      requires 1 <= max && browseList != [] && browsePos as int == |browseList| - 1
      modifies this
      ensures Abs() == Trim(old(Abs()), max as int) && 1 <= |browseList|
      ensures browsePos as int == |browseList| - 1 && |browseList| <= max as int
    {
      while |browseList| > max as int
        invariant browseList != [] && browsePos as int == |browseList| - 1
        invariant Trim(Abs(), max as int) == Trim(old(Abs()), max as int)
      {
        browseList := browseList[1..];
        browsePos := browsePos - 1;
      }
    }

    method ResultArrives(html: string, query: string, max: uint32, x: int, y: int)
      requires Valid() && 1 <= max as int <= MAX_LIMIT
      modifies this
      ensures Valid() && Abs() == ResultReady(old(Abs()), html, query, max as int, x, y)
      ensures 1 <= |browseList| <= max as int && browsePos as int == |browseList| - 1
    {
      var brw := Entry(html, query, 0, 0);
      if browseList == [] {
        browsePos := 0;
        browseList := [brw];
      } else {
        SaveCurrentResultPos(x, y);
        RemoveAhead();
        browseList := browseList + [brw];
        browsePos := browsePos + 1;
        TrimToLimit(max);
      }
    }

    method BrowseBack(x: int, y: int)
      requires Valid()
      modifies this
      ensures Valid() && Abs() == Step(old(Abs()), Back(x, y))
    {
      if browsePos > 0 {
        SaveCurrentResultPos(x, y);
        browsePos := browsePos - 1;
      }
    }

    method BrowseForward(x: int, y: int)
      requires Valid()
      modifies this
      ensures Valid() && Abs() == Step(old(Abs()), Forward(x, y))
    {
      if browsePos as int + 1 < |browseList| {
        SaveCurrentResultPos(x, y);
        browsePos := browsePos + 1;
      }
    }

    /** From the menu of earlier entries; there is none for an empty list. */
    method BrowseBackBy(index: nat, x: int, y: int)
      requires Valid() && browseList != []
      modifies this
      ensures Valid() && Abs() == Step(old(Abs()), BackBy(index, x, y))
    {
      var to := browsePos as int - index;
      if to >= 0 {
        SaveCurrentResultPos(x, y);
        browsePos := to as uint32;
      }
    }

    method BrowseForwardBy(index: nat, x: int, y: int)
      requires Valid() && browseList != []
      modifies this
      ensures Valid() && Abs() == Step(old(Abs()), ForwardBy(index, x, y))
    {
      var to := browsePos as int + index;
      if to < |browseList| {
        SaveCurrentResultPos(x, y);
        browsePos := to as uint32;
      }
    }
  }
}
