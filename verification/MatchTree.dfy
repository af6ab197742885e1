/** The lazily expanded match list of kdict (kdict/matchview.cpp): matches are
    grouped by database, and a group's entries become list items only when the
    group is opened. */
module MatchTree {
  import opened Sequences

  // ----- the flat list the tree stands for

  /** The database a match comes from: everything before the first blank. */
  function Db(m: string): string {
    if m == "" || m[0] == ' ' then "" else [m[0]] + Db(m[1..])
  }

  /** The name is the first word of the match. */
  lemma {:induction false} DbIsFirstWord(m: string)
    ensures Db(m) <= m && ' ' !in Db(m) && (Db(m) == m || m[|Db(m)|] == ' ')
  {
    if m != "" && m[0] != ' ' {
      DbIsFirstWord(m[1..]);
    }
  }

  function DefineCommand(m: string): string {
    "define " + m + "\r\n"
  }

  function Commands(matches: seq<string>): (r: seq<string>)
    ensures |r| == |matches|
  {
    if matches == [] then []
    else Commands(matches[..|matches| - 1]) + [DefineCommand(matches[|matches| - 1])]
  }

  /** Of which matches the database name compares equal to a null string, the
      value `lastDb` starts with.  A string library that tells null and empty
      apart says of none; one that does not, of those with an empty name. */
  type NullName = string -> bool

  /** The matches that `newList` puts into the tree: those before the first one
      whose name differs from the null string find no group and are dropped. */
  function Kept(isNull: NullName, matches: seq<string>): seq<string> {
    if matches == [] then []
    else
      var k := Kept(isNull, matches[..|matches| - 1]);
      var m := matches[|matches| - 1];
      if k == [] && isNull(m) then [] else k + [m]
  }

  /** Nothing is dropped exactly if the name of the first match differs from the
      null string. */
  lemma {:induction false} KeptIsAllIff(isNull: NullName, matches: seq<string>)
    ensures Kept(isNull, matches) == matches <==> matches == [] || !isNull(matches[0])
    ensures |Kept(isNull, matches)| <= |matches|
  {
    if matches != [] {
      var init := matches[..|matches| - 1];
      KeptIsAllIff(isNull, init);
      assert matches == init + [matches[|matches| - 1]];
      if init != [] && isNull(matches[0]) {
        KeptShort(isNull, init);
      }
    }
  }

  lemma {:induction false} KeptShort(isNull: NullName, matches: seq<string>)
    requires matches != [] && isNull(matches[0])
    ensures |Kept(isNull, matches)| < |matches|
  {
    if |matches| > 1 {
      KeptShort(isNull, matches[..|matches| - 1]);
    }
  }

  /** The entries of the first `n` groups, in order. */
  function Flatten(groups: seq<seq<string>>, n: nat): seq<string>
    requires n <= |groups|
  {
    if n == 0 then [] else Flatten(groups, n - 1) + groups[n - 1]
  }

  function Limited(commands: seq<string>, max: nat): seq<string> {
    if |commands| > max then commands[..max] else commands
  }

  lemma CommandsSnoc(matches: seq<string>, m: string)
    ensures Commands(matches + [m]) == Commands(matches) + [DefineCommand(m)]
  {
    assert (matches + [m])[..|matches + [m]| - 1] == matches;
  }

  lemma {:induction false} FlattenPrefix(a: seq<seq<string>>, b: seq<seq<string>>, n: nat)
    requires n <= |a| && n <= |b| && forall k | 0 <= k < n :: a[k] == b[k]
    ensures Flatten(a, n) == Flatten(b, n)
  {
    if n > 0 {
      FlattenPrefix(a, b, n - 1);
    }
  }

  lemma FlattenLast(groups: seq<seq<string>>, command: string)
    requires groups != []
    ensures var n := |groups| - 1;
            Flatten(groups[n := groups[n] + [command]], |groups|) == Flatten(groups, |groups|) + [command]
  {
    var n := |groups| - 1;
    FlattenPrefix(groups, groups[n := groups[n] + [command]], n);
    Assoc(Flatten(groups, n), groups[n], [command]);
  }

  lemma KeptNext(isNull: NullName, matches: seq<string>, i: nat)
    requires i < |matches|
    ensures var k, next := Kept(isNull, matches[..i]), Kept(isNull, matches[..i + 1]);
            if k == [] && isNull(matches[i]) then next == []
            else next != [] && Commands(next) == Commands(k) + [DefineCommand(matches[i])]
  {
    assert matches[..i + 1][..i] == matches[..i];
    CommandsSnoc(Kept(isNull, matches[..i]), matches[i]);
  }

  // ----- the groups

  datatype Group = Group(db: string, members: seq<string>)

  /** One more match: it joins the last group if that is of its database. */
  function NextGroups(isNull: NullName, gs: seq<Group>, m: string): seq<Group> {
    if gs == [] then if isNull(m) then [] else [Group(Db(m), [m])]
    else
      var n := |gs| - 1;
      if Db(m) == gs[n].db then gs[n := Group(gs[n].db, gs[n].members + [m])] else gs + [Group(Db(m), [m])]
  }

  function GroupsOf(isNull: NullName, matches: seq<string>): seq<Group> {
    if matches == [] then []
    else NextGroups(isNull, GroupsOf(isNull, matches[..|matches| - 1]), matches[|matches| - 1])
  }

  function Members(gs: seq<Group>): seq<string> {
    if gs == [] then [] else Members(gs[..|gs| - 1]) + gs[|gs| - 1].members
  }

  /** Each group has the matches of one database, and the next one is of another. */
  ghost predicate OneDatabaseEach(gs: seq<Group>) {
    && (forall i | 0 <= i < |gs| :: gs[i].members != [] && forall m <- gs[i].members :: Db(m) == gs[i].db)
    && (forall i {:trigger gs[i]} | 0 < i < |gs| :: gs[i].db != gs[i - 1].db)
  }

  lemma MembersSnoc(gs: seq<Group>, g: Group)
    ensures Members(gs + [g]) == Members(gs) + g.members
  {
    assert (gs + [g])[..|gs|] == gs;
  }

  lemma NextGroupsRight(isNull: NullName, gs: seq<Group>, m: string)
    requires OneDatabaseEach(gs)
    ensures var r := NextGroups(isNull, gs, m);
            && OneDatabaseEach(r)
            && Members(r) == if gs == [] && isNull(m) then [] else Members(gs) + [m]
  {
    var r := NextGroups(isNull, gs, m);
    if gs == [] {
      if !isNull(m) {
        EmptyFirst([Group(Db(m), [m])]);
        MembersSnoc([], Group(Db(m), [m]));
      }
    } else if Db(m) == gs[|gs| - 1].db {
      Joined(gs, m);
    } else {
      MembersSnoc(gs, Group(Db(m), [m]));
    }
  }

  lemma Joined(gs: seq<Group>, m: string)
    requires gs != []
    ensures var n := |gs| - 1;
            Members(gs[n := Group(gs[n].db, gs[n].members + [m])]) == Members(gs) + [m]
  {
    var n := |gs| - 1;
    var g := Group(gs[n].db, gs[n].members + [m]);
    assert gs[n := g] == gs[..n] + [g] && gs == gs[..n] + [gs[n]];
    MembersSnoc(gs[..n], g);
    MembersSnoc(gs[..n], gs[n]);
    Assoc(Members(gs[..n]), gs[n].members, [m]);
  }

  /** The groups hold the kept matches in order, cut where the database changes. */
  lemma {:induction false} GroupsRight(isNull: NullName, matches: seq<string>)
    ensures OneDatabaseEach(GroupsOf(isNull, matches)) && Members(GroupsOf(isNull, matches)) == Kept(isNull, matches)
    ensures GroupsOf(isNull, matches) == [] <==> Kept(isNull, matches) == []
  {
    if matches != [] {
      GroupsRight(isNull, matches[..|matches| - 1]);
      NextGroupsRight(isNull, GroupsOf(isNull, matches[..|matches| - 1]), matches[|matches| - 1]);
    }
  }

  // ----- the tree

  class MatchViewItem {
    const text: string
    var subEntrys: seq<string>
    /** The commands of the child items. */
    var children: seq<string>
    var open: bool

    constructor (text: string)
      ensures this.text == text && subEntrys == [] && children == [] && !open
    {
      this.text := text;
      subEntrys, children, open := [], [], false;
    }

    ghost predicate Valid()
      reads this
    {
      subEntrys == [] || children == []
    }

    /** The commands this group stands for. */
    ghost function Entries(): seq<string>
      reads this
    {
      if subEntrys != [] then Commands(subEntrys) else children
    }

    /** Opening builds the children; closing keeps them.  The group stands for
        the same commands. */
    method SetOpen(o: bool)
      requires Valid()
      modifies this
      ensures Valid() && Entries() == old(Entries())
      ensures o ==> subEntrys == [] && children == old(Entries())
      ensures !o ==> subEntrys == old(subEntrys) && children == old(children)
      ensures open == if children == [] then old(open) else o
    {
      if o && children == [] {
        ghost var was := subEntrys;
        var i := 0;
        assert was[..0] == [];
        while i < |subEntrys|
          invariant 0 <= i <= |subEntrys| && subEntrys == was && open == old(open)
          invariant children == Commands(was[..i])
        {
          CommandsSnoc(was[..i], was[i]);
          assert was[..i + 1] == was[..i] + [was[i]];
          children := children + ["define " + subEntrys[i] + "\r\n"];
          i := i + 1;
        }
        assert was[..i] == was;
        subEntrys := [];
      }
      if children != [] {
        open := o;
      }
    }

    method Append(m: string)
      requires Valid() && children == []
      modifies this`subEntrys
      ensures Valid() && Entries() == old(Entries()) + [DefineCommand(m)]
    {
      CommandsSnoc(subEntrys, m);
      subEntrys := subEntrys + [m];
    }

    /** What `getAll` adds to its list for this group. */
    method AppendTo(defines: seq<string>) returns (r: seq<string>)
      requires Valid()
      ensures r == defines + Entries()
    {
      r := defines;
      var i := 0;
      if subEntrys != [] {
        assert subEntrys[..0] == [] && defines + [] == defines;
        while i < |subEntrys|
          invariant 0 <= i <= |subEntrys| && r == defines + Commands(subEntrys[..i])
        {
          CommandsSnoc(subEntrys[..i], subEntrys[i]);
          assert subEntrys[..i + 1] == subEntrys[..i] + [subEntrys[i]];
          Assoc(defines, Commands(subEntrys[..i]), [DefineCommand(subEntrys[i])]);
          r := r + ["define " + subEntrys[i] + "\r\n"];
          i := i + 1;
        }
        assert subEntrys[..i] == subEntrys;
      } else {
        while i < |children|
          invariant 0 <= i <= |children| && r == defines + children[..i]
        {
          Assoc(defines, children[..i], [children[i]]);
          assert children[..i + 1] == children[..i] + [children[i]];
          r := r + [children[i]];
          i := i + 1;
        }
        assert children[..i] == children;
        assert Entries() == children;
      }
    }
  }

  /** At the end of `newList` the last group is opened, if there are few
      matches, without a test that there is one. */
  predicate Safe(isNull: NullName, matches: seq<string>) {
    matches == [] || |matches| >= 200 || Kept(isNull, matches) != []
  }

  lemma {:induction false} KeptNoneIff(isNull: NullName, matches: seq<string>)
    ensures Kept(isNull, matches) == [] <==> forall m <- matches :: isNull(m)
  {
    if matches != [] {
      var init := matches[..|matches| - 1];
      KeptNoneIff(isNull, init);
      assert forall m <- init :: m in matches;
      assert matches[|matches| - 1] in matches;
      assert forall m <- matches :: m in init || m == matches[|matches| - 1];
    }
  }

  /** The source follows a null pointer exactly for a list of at least one and
      fewer than 200 matches whose names all compare equal to the null string. */
  lemma UnsafeIff(isNull: NullName, matches: seq<string>)
    ensures !Safe(isNull, matches) <==> 0 < |matches| < 200 && forall m <- matches :: isNull(m)
  {
    KeptNoneIff(isNull, matches);
  }

  class MatchView {
    const maxDefinitions: nat
    const isNull: NullName
    var list: seq<MatchViewItem>
    /** The calls of `getDefinitions`. */
    var requests: seq<seq<string>>
    /** What the groups in the list stand for. */
    ghost var Groups: seq<seq<string>>
    /** Every item that was ever in the list. */
    ghost var Owned: set<MatchViewItem>

    constructor (maxDefinitions: nat, isNull: NullName)
      ensures Valid() && fresh(Owned) && requests == [] && Flat() == []
      ensures this.maxDefinitions == maxDefinitions && this.isNull == isNull
    {
      this.maxDefinitions, this.isNull := maxDefinitions, isNull;
      list, requests, Groups, Owned := [], [], [], {};
    }

    ghost predicate Valid()
      reads this, Owned
    {
      && Distinct(list)
      && |list| == |Groups|
      && forall i | 0 <= i < |list| ::
           list[i] in Owned && list[i].Valid() && list[i].Entries() == Groups[i]
    }

    /** The tree shows the groups. */
    ghost predicate Shape(gs: seq<Group>)
      reads this
    {
      && |list| == |gs| == |Groups|
      && forall i | 0 <= i < |list| :: list[i].text == gs[i].db && Groups[i] == Commands(gs[i].members)
    }

    /** The commands of the whole tree, in order. */
    ghost function Flat(): seq<string>
      reads this
    {
      Flatten(Groups, |Groups|)
    }

    method SetOpen(i: nat, o: bool)
      requires Valid() && i < |list|
      modifies list[i]
      ensures Valid() && (o ==> list[i].subEntrys == [])
    {
      DistinctAt(list, i);
      list[i].SetOpen(o);
    }

    method SetAllOpen(o: bool)
      requires Valid()
      modifies Owned
      ensures Valid()
    {
      var i := 0;
      while i < |list|
        invariant 0 <= i <= |list| && Valid()
      {
        SetOpen(i, o);
        i := i + 1;
      }
    }

    /** The last group is still being filled. */
    ghost predicate Filling()
      requires Valid()
      reads this, Owned
    {
      list != [] && list[|list| - 1].children == []
    }

    method AddGroup(db: string)
      requires Valid()
      modifies this`list, this`Groups, this`Owned
      ensures Valid() && fresh(Owned - old(Owned)) && old(Owned) <= Owned
      ensures Filling() && Flat() == old(Flat()) && Groups == old(Groups) + [[]]
      ensures |list| == |old(list)| + 1 && list[..|old(list)|] == old(list) && list[|list| - 1].text == db
    {
      FlattenPrefix(Groups, Groups + [[]], |Groups|);
      var top := new MatchViewItem(db);
      assert (list + [top])[..|list|] == list;
      list, Groups, Owned := list + [top], Groups + [[]], Owned + {top};
    }

    method AppendEntry(m: string)
      requires Valid() && Filling()
      modifies this`Groups, list[|list| - 1]
      ensures Valid() && Filling() && Flat() == old(Flat()) + [DefineCommand(m)]
      ensures Groups == old(Groups)[|list| - 1 := old(Groups)[|list| - 1] + [DefineCommand(m)]]
    {
      var n := |list| - 1;
      ghost var next := Groups[n := Groups[n] + [DefineCommand(m)]];
      FlattenLast(Groups, DefineCommand(m));
      DistinctAt(list, n);
      list[n].Append(m);
      Groups := next;
    }

    method StartGroup(db: string, initialOpen: bool)
      requires Valid()
      modifies this`list, this`Groups, this`Owned, Owned
      ensures Valid() && fresh(Owned - old(Owned)) && old(Owned) <= Owned
      ensures Filling() && Flat() == old(Flat()) && Groups == old(Groups) + [[]]
      ensures |list| == |old(list)| + 1 && list[..|old(list)|] == old(list) && list[|list| - 1].text == db
    {
      if |list| > 0 {
        SetOpen(|list| - 1, initialOpen);
      }
      AddGroup(db);
    }

    /** One match in the loop of `newList`; `lastDb` is null at first. */
    method AddMatch(m: string, lastDb: Option<string>, initialOpen: bool, ghost gs: seq<Group>)
      returns (db: Option<string>)
      requires Valid() && Shape(gs) && LastIs(lastDb, gs)
      modifies this`list, this`Groups, this`Owned, Owned
      ensures Valid() && fresh(Owned - old(Owned)) && old(Owned) <= Owned
      ensures Shape(NextGroups(isNull, gs, m)) && LastIs(db, NextGroups(isNull, gs, m))
      ensures Flat() == if old(list) == [] && isNull(m) then old(Flat()) else old(Flat()) + [DefineCommand(m)]
    {
      db := lastDb;
      if (if lastDb.None? then !isNull(m) else Db(m) != lastDb.value) {
        StartGroup(Db(m), initialOpen);
        db := Some(Db(m));
        Enter(m, gs + [Group(Db(m), [])]);
        assert gs + [Group(Db(m), [m])] == (gs + [Group(Db(m), [])])[|gs| := Group(Db(m), [] + [m])];
      } else if |list| > 0 {
        Enter(m, gs);
      }
    }

    method Enter(m: string, ghost gs: seq<Group>)
      requires Valid() && Shape(gs) && gs != [] && Filling()
      modifies this`Groups, list[|list| - 1]
      ensures Valid() && Filling() && Flat() == old(Flat()) + [DefineCommand(m)]
      ensures Shape(gs[|gs| - 1 := Group(gs[|gs| - 1].db, gs[|gs| - 1].members + [m])])
    {
      CommandsSnoc(gs[|gs| - 1].members, m);
      AppendEntry(m);
    }

    /** The last group is that of the database last seen, and still filled. */
    ghost predicate LastIs(lastDb: Option<string>, gs: seq<Group>)
      requires Valid()
      reads this, Owned
    {
      if gs == [] then lastDb == None else lastDb == Some(gs[|gs| - 1].db) && Filling()
    }

    /** The tree stands for what is kept of `part`. */
    ghost predicate Holds(part: seq<string>, lastDb: Option<string>)
      requires Valid()
      reads this, Owned
    {
      var gs := GroupsOf(isNull, part);
      Shape(gs) && LastIs(lastDb, gs) && Flat() == Commands(Kept(isNull, part))
    }

    method AddNext(matches: seq<string>, i: nat, lastDb: Option<string>, initialOpen: bool)
      returns (db: Option<string>)
      requires Valid() && i < |matches| && Holds(matches[..i], lastDb)
      modifies this`list, this`Groups, this`Owned, Owned
      ensures Valid() && fresh(Owned - old(Owned)) && old(Owned) <= Owned
      ensures Holds(matches[..i + 1], db) && (old(list) != [] ==> list != [])
    {
      KeptNext(isNull, matches, i);
      GroupsRight(isNull, matches[..i]);
      assert matches[..i + 1][..i] == matches[..i];
      db := AddMatch(matches[i], lastDb, initialOpen, GroupsOf(isNull, matches[..i]));
    }

    method AddMatches(matches: seq<string>, initialOpen: bool) returns (numDb: nat)
      requires Valid() && list == []
      modifies this`list, this`Groups, this`Owned, Owned
      ensures Valid() && fresh(Owned - old(Owned)) && Flat() == Commands(Kept(isNull, matches))
      ensures Shape(GroupsOf(isNull, matches))
      ensures (numDb >= 1 <==> list != []) && (list == [] <==> Kept(isNull, matches) == [])
    {
      var lastDb: Option<string> := None;
      numDb := 0;
      var i := 0;
      assert matches[..0] == [];
      while i < |matches|
        invariant 0 <= i <= |matches| && Valid() && fresh(Owned - old(Owned)) && old(Owned) <= Owned
        invariant Holds(matches[..i], lastDb) && (numDb >= 1 <==> list != [])
      {
        var db := AddNext(matches, i, lastDb, initialOpen);
        if db != lastDb {
          numDb := numDb + 1;
        }
        lastDb := db;
        i := i + 1;
      }
      assert matches[..i] == matches;
      GroupsRight(isNull, matches);
    }

    /** `ok` is false where the source follows a null pointer. */
    method NewList(matches: seq<string>) returns (ok: bool)
      requires Valid()
      modifies this`list, this`Groups, this`Owned, Owned
      ensures Valid() && fresh(Owned - old(Owned)) && Flat() == Commands(Kept(isNull, matches))
      ensures ok <==> Safe(isNull, matches)
      ensures matches != [] ==> Shape(GroupsOf(isNull, matches))
    {
      ok := true;
      var initialOpen := |matches| < 200;
      list, Groups := [], [];
      if matches == [] {
        AddGroup(" No Hits");
      } else {
        var numDb := AddMatches(matches, initialOpen);
        if numDb == 1 || initialOpen {
          if |list| == 0 {
            return false;
          }
          SetOpen(|list| - 1, true);
        }
      }
    }

    method DoGet(defines: seq<string>)
      modifies this`requests
      ensures requests == if defines == [] then old(requests) else old(requests) + [Limited(defines, maxDefinitions)]
    {
      if |defines| > 0 {
        var d := defines;
        while |d| > maxDefinitions
          invariant |d| <= |defines| && d == defines[..|d|]
          invariant |d| >= maxDefinitions || d == defines
        {
          d := d[..|d| - 1];
        }
        requests := requests + [d];
      }
    }

    /** Asks for every match, whatever groups have been opened. */
    method GetAll()
      requires Valid()
      modifies this`requests
      ensures requests == if Flat() == [] then old(requests) else old(requests) + [Limited(Flat(), maxDefinitions)]
    {
      var defines: seq<string> := [];
      var i := 0;
      while i < |list|
        invariant 0 <= i <= |list| == |Groups| && defines == Flatten(Groups, i)
        invariant requests == old(requests)
      {
        defines := list[i].AppendTo(defines);
        i := i + 1;
      }
      DoGet(defines);
    }

    method Handle(e: Event)
      requires Valid() && (e.MatchReady? ==> Safe(isNull, e.matches))
      modifies this, Owned
      ensures Valid() && fresh(Owned - old(Owned))
      ensures Flat() == if e.MatchReady? then Commands(Kept(isNull, e.matches)) else old(Flat())
      ensures requests
           == if e.GetAll? && old(Flat()) != [] then old(requests) + [Limited(old(Flat()), maxDefinitions)]
              else old(requests)
    {
      match e
      case MatchReady(m) =>
        var ok := NewList(m);
      case SetOpen(k, o) =>
        if k < |list| {
          SetOpen(k, o);
        }
      case SetAllOpen(o) => SetAllOpen(o);
      case GetAll => GetAll();
    }

    /** The view shows the session `s`. */
    ghost predicate Shows(s: Session)
      reads this
    {
      requests == s.requests && Flat() == Commands(s.matches)
    }

    method HandleNext(e: Event, ghost s: Session)
      requires Valid() && Shows(s) && (e.MatchReady? ==> Safe(isNull, e.matches))
      modifies this, Owned
      ensures Valid() && fresh(Owned - old(Owned)) && Shows(After(maxDefinitions, isNull, s, e))
    {
      Handle(e);
    }
  }

  // ----- whole sessions

  datatype Event = MatchReady(matches: seq<string>) | SetOpen(i: nat, open: bool) | SetAllOpen(open: bool) | GetAll

  /** The matches listed last, as far as they are kept, and the requests made. */
  datatype Session = Session(matches: seq<string>, requests: seq<seq<string>>)

  /** Opening and closing groups changes nothing; Get All asks for the matches
      listed last. */
  function After(max: nat, isNull: NullName, s: Session, e: Event): Session {
    match e
    case MatchReady(m) => s.(matches := Kept(isNull, m))
    case GetAll =>
      if s.matches == [] then s else s.(requests := s.requests + [Limited(Commands(s.matches), max)])
    case _ => s
  }

  /** Get All asks for the definitions of the first `max` matches, in order. */
  lemma GetAllAsksFirst(max: nat, isNull: NullName, s: Session)
    requires s.matches != []
    ensures var r, n := After(max, isNull, s, GetAll), |s.requests|;
            && |r.requests| == n + 1 && r.requests[..n] == s.requests && r.matches == s.matches
            && |r.requests[n]| == (if |s.matches| > max then max else |s.matches|)
            && forall i | 0 <= i < |r.requests[n]| :: r.requests[n][i] == "define " + s.matches[i] + "\r\n"
  {
    forall i | 0 <= i < |s.matches| ensures Commands(s.matches)[i] == "define " + s.matches[i] + "\r\n" {
      CommandAt(s.matches, i);
    }
  }

  lemma {:induction false} CommandAt(matches: seq<string>, i: nat)
    requires i < |matches|
    ensures Commands(matches)[i] == "define " + matches[i] + "\r\n"
  {
    if i < |matches| - 1 {
      CommandAt(matches[..|matches| - 1], i);
    }
  }

  function Expected(max: nat, isNull: NullName, events: seq<Event>, n: nat): Session
    requires n <= |events|
  {
    if n == 0 then Session([], [])
    else After(max, isNull, Expected(max, isNull, events, n - 1), events[n - 1])
  }

  /** In every session each Get All asks for the first `max` definitions of the
      matches listed last, in their order, whatever was opened before; that is all
      of them if the name of the first one is not null (KeptIsAllIff). */
  method RunMatchView(max: nat, isNull: NullName, events: seq<Event>) returns (view: MatchView)
    requires forall i | 0 <= i < |events| :: events[i].MatchReady? ==> Safe(isNull, events[i].matches)
    ensures view.requests == Expected(max, isNull, events, |events|).requests
  {
    view := new MatchView(max, isNull);
    ghost var s := Expected(max, isNull, events, 0);
    var i := 0;
    while i < |events|
      invariant 0 <= i <= |events| && s == Expected(max, isNull, events, i)
      invariant fresh(view) && fresh(view.Owned) && view.Valid()
      invariant view.maxDefinitions == max && view.isNull == isNull
      invariant view.Shows(s)
    {
      view.HandleNext(events[i], s);
      s := After(max, isNull, s, events[i]);
      i := i + 1;
    }
  }
}
