/** What the moves of the browse history mean on the list of pages: the page
    shown and those behind and ahead of it. */
module BrowseMoves {
  import opened BrowseHistory

  datatype Page = Page(html: string, query: string)

  function Pages(list: seq<Entry>): (r: seq<Page>)
    ensures |r| == |list|
  {
    seq(|list|, i requires 0 <= i < |list| => Page(list[i].html, list[i].query))
  }

  ghost predicate Showing(b: Browser) {
    InRange(b) && b.list != []
  }

  function BehindOf(b: Browser): seq<Page>
    requires Showing(b)
  {
    Pages(b.list[..b.pos])
  }

  function Shown(b: Browser): Page
    requires Showing(b)
  {
    Page(b.list[b.pos].html, b.list[b.pos].query)
  }

  function AheadOf(b: Browser): seq<Page>
    requires Showing(b)
  {
    Pages(b.list[b.pos + 1..])
  }

  /** Where the entry at `i` is scrolled to. */
  predicate ScrolledTo(b: Browser, i: int, x: int, y: int) {
    0 <= i < |b.list| && b.list[i].x == x && b.list[i].y == y
  }

  // ----- single moves

  /** Forward shows the first page ahead, and the page left is now behind; it is
      refused iff there is none. */
  lemma ForwardShowsNext(b: Browser, x: int, y: int)
    requires Showing(b)
    ensures var r := Step(b, Forward(x, y));
            && Showing(r)
            && (AheadOf(b) == [] ==> r == b)
            && (AheadOf(b) != [] ==>
                  && Shown(r) == AheadOf(b)[0] && AheadOf(r) == AheadOf(b)[1..]
                  && BehindOf(r) == BehindOf(b) + [Shown(b)]
                  && ScrolledTo(r, b.pos, x, y))
  {
    var r := Step(b, Forward(x, y));
    if AheadOf(b) != [] {
      assert r.pos == b.pos + 1;
      SamePages(b, r, x, y);
    }
  }

  /** Back shows the last page behind, and the page left is now ahead. */
  lemma BackShowsPrevious(b: Browser, x: int, y: int)
    requires Showing(b)
    ensures var r := Step(b, Back(x, y));
            && Showing(r)
            && (BehindOf(b) == [] ==> r == b)
            && (BehindOf(b) != [] ==>
                  && Shown(r) == BehindOf(b)[|BehindOf(b)| - 1] && BehindOf(r) == BehindOf(b)[..|BehindOf(b)| - 1]
                  && AheadOf(r) == [Shown(b)] + AheadOf(b)
                  && ScrolledTo(r, b.pos, x, y))
  {
    var r := Step(b, Back(x, y));
    if BehindOf(b) != [] {
      assert r.pos == b.pos - 1;
      SamePages(b, r, x, y);
    }
  }

  /** Moving changes no page. */
  lemma SamePages(b: Browser, r: Browser, x: int, y: int)
    requires Showing(b) && r.list == SavePos(b, x, y).list
    ensures Pages(r.list) == Pages(b.list) && |r.list| == |b.list|
    ensures forall i | 0 <= i < |b.list| :: Pages(b.list)[i] == Page(b.list[i].html, b.list[i].query)
    ensures forall i | 0 <= i < |b.list| :: r.list[i].html == b.list[i].html && r.list[i].query == b.list[i].query
  {
  }

  /** Back and then Forward, or the other way round, leads to the same entry
      again, and back to where it was scrolled to when it was left. */
  lemma ThereAndBack(b: Browser, x: int, y: int, u: int, v: int)
    requires Showing(b)
    ensures var r := Step(Step(b, Back(x, y)), Forward(u, v));
            BehindOf(b) != [] ==> r.pos == b.pos && Pages(r.list) == Pages(b.list) && ScrolledTo(r, r.pos, x, y)
    ensures var r := Step(Step(b, Forward(x, y)), Back(u, v));
            AheadOf(b) != [] ==> r.pos == b.pos && Pages(r.list) == Pages(b.list) && ScrolledTo(r, r.pos, x, y)
  {
    BackShowsPrevious(b, x, y);
    ForwardShowsNext(b, x, y);
    ForwardShowsNext(Step(b, Back(x, y)), u, v);
    BackShowsPrevious(Step(b, Forward(x, y)), u, v);
    if BehindOf(b) != [] {
      SamePages(b, Step(b, Back(x, y)), x, y);
      SamePages(Step(b, Back(x, y)), Step(Step(b, Back(x, y)), Forward(u, v)), u, v);
    }
    if AheadOf(b) != [] {
      SamePages(b, Step(b, Forward(x, y)), x, y);
      SamePages(Step(b, Forward(x, y)), Step(Step(b, Forward(x, y)), Back(u, v)), u, v);
    }
  }

  // ----- moves by the index in a menu

  /** `n` single moves, as far as they are possible. */
  function Moves(b: Browser, e: Event, n: nat): (r: Browser)
    requires InRange(b) && (e.Back? || e.Forward?)
    ensures InRange(r)
  {
    if n == 0 then b else Step(Moves(b, e, n - 1), e)
  }

  /** The menu moves as many entries ahead as its index says, and only if there
      are so many; single moves go on as long as there is a page. */
  lemma {:induction false} MenuForward(b: Browser, n: nat, x: int, y: int)
    requires Showing(b)
    ensures var r, t := Step(b, ForwardBy(n, x, y)), Moves(b, Forward(x, y), n);
            Showing(t) && Pages(t.list) == Pages(b.list)
            && if n <= |AheadOf(b)| then r.pos == t.pos == b.pos + n && Pages(r.list) == Pages(b.list)
               else r == b && t.pos == b.pos + |AheadOf(b)|
  {
    SamePages(b, SavePos(b, x, y), x, y);
    if n > 0 {
      MenuForward(b, n - 1, x, y);
      var t := Moves(b, Forward(x, y), n - 1);
      SamePages(t, SavePos(t, x, y), x, y);
    }
  }

  lemma {:induction false} MenuBack(b: Browser, n: nat, x: int, y: int)
    requires Showing(b)
    ensures var r, t := Step(b, BackBy(n, x, y)), Moves(b, Back(x, y), n);
            Showing(t) && Pages(t.list) == Pages(b.list)
            && if n <= |BehindOf(b)| then r.pos == t.pos == b.pos - n && Pages(r.list) == Pages(b.list)
               else r == b && t.pos == 0
  {
    SamePages(b, SavePos(b, x, y), x, y);
    if n > 0 {
      MenuBack(b, n - 1, x, y);
      var t := Moves(b, Back(x, y), n - 1);
      SamePages(t, SavePos(t, x, y), x, y);
    }
  }

  // ----- results

  /** The last `n`. */
  function Last<T>(s: seq<T>, n: nat): seq<T> {
    if |s| <= n then s else s[|s| - n..]
  }

  /** The pages that a result keeps. */
  function UpToShown(b: Browser): seq<Page>
    requires InRange(b)
  {
    if b.list == [] then [] else BehindOf(b) + [Shown(b)]
  }

  /** A result drops the pages ahead and is shown as the last one; of all pages
      the last `max` are kept.  The page left keeps its place on the screen. */
  lemma ResultShown(b: Browser, html: string, query: string, max: nat, x: int, y: int)
    requires InRange(b) && 1 <= max
    ensures var r := Step(b, Result(html, query, max, x, y));
            && Showing(r) && Shown(r) == Page(html, query) && AheadOf(r) == [] && ScrolledTo(r, r.pos, 0, 0)
            && Pages(r.list) == Last(UpToShown(b) + [Page(html, query)], max)
            && (b.list != [] && max > 1 ==> ScrolledTo(r, r.pos - 1, x, y))
  {
    var v := Visit(b, html, query, x, y);
    TrimKeepsLast(v, max);
    assert Pages(v.list) == UpToShown(b) + [Page(html, query)];
    assert Pages(Last(v.list, max)) == Last(Pages(v.list), max);
  }

  lemma {:induction false} TrimKeepsLast(b: Browser, max: nat)
    requires b.list != [] && b.pos == |b.list| - 1 && 1 <= max
    ensures Trim(b, max).list == Last(b.list, max) && Trim(b, max).pos == |Trim(b, max).list| - 1
    decreases |b.list|
  {
    if |b.list| > max {
      TrimKeepsLast(Browser(b.list[1..], b.pos - 1), max);
    }
  }
}
