/** Inheritance in kppp's modem database (kppp/modemdb.cpp): a modem takes the
    attributes it does not define itself from its parents, and from the group
    "Common" at last. */
module ModemDb {
  import opened Sequences

  type Group = map<string, string>

  type Database = map<string, Group>

  /** The entries of a group; a missing one has none. */
  function Entries(db: Database, key: string): Group {
    if key in db then db[key] else map[]
  }

  predicate HasParent(db: Database, key: string) {
    "Parent" in Entries(db, key)
  }

  /** The group that `loadModem` goes on with. */
  function NextGroup(db: Database, key: string): Option<string> {
    if HasParent(db, key) then Some(Entries(db, key)["Parent"])
    else if key != "Common" then Some("Common") else None
  }

  /** The groups visited from the first to the last. */
  ghost predicate IsChain(db: Database, chain: seq<string>) {
    && chain != []
    && (forall i | 0 <= i < |chain| - 1 :: NextGroup(db, chain[i]) == Some(chain[i + 1]))
    && NextGroup(db, chain[|chain| - 1]) == None
  }

  // ----- termination

  /** A walk along parent links. */
  ghost predicate IsPath(db: Database, path: seq<string>) {
    && path != []
    && forall i | 0 <= i < |path| - 1 ::
         HasParent(db, path[i]) && Entries(db, path[i])["Parent"] == path[i + 1]
  }

  ghost predicate Acyclic(db: Database) {
    forall path | IsPath(db, path) && |path| >= 2 :: path[0] != path[|path| - 1]
  }

  function Elements(s: seq<string>): set<string> {
    set x | x in s
  }

  lemma PathDistinct(db: Database, path: seq<string>, i: nat, j: nat)
    requires Acyclic(db) && IsPath(db, path) && i < j < |path|
    ensures path[i] != path[j]
  {
    var sub := path[i..j + 1];
    assert forall k | 0 <= k < |sub| :: sub[k] == path[i + k];
    assert IsPath(db, sub);
  }

  /** Without a cycle a walk meets no group twice, so all but its last group are
      different groups of the database. */
  lemma {:induction false} PathIsShort(db: Database, path: seq<string>, n: nat)
    requires Acyclic(db) && IsPath(db, path) && n < |path|
    ensures |Elements(path[..n])| == n && Elements(path[..n]) <= db.Keys
  {
    if n == 0 {
      assert Elements(path[..0]) == {};
    } else {
      PathIsShort(db, path, n - 1);
      var last := path[n - 1];
      assert path[..n] == path[..n - 1] + [last];
      assert Elements(path[..n]) == Elements(path[..n - 1]) + {last};
      forall i | 0 <= i < n - 1 ensures path[i] != last {
        PathDistinct(db, path, i, n - 1);
      }
      assert last !in Elements(path[..n - 1]);
      assert HasParent(db, last);
    }
  }

  lemma CardSubset(a: set<string>, b: set<string>)
    requires a <= b
    ensures |a| <= |b|
  {
    assert b == a + (b - a);
  }

  lemma PathToChain(db: Database, path: seq<string>) returns (chain: seq<string>)
    requires Acyclic(db) && !HasParent(db, "Common") && IsPath(db, path)
    ensures IsChain(db, chain) && chain[0] == path[0]
    decreases |db.Keys| + 1 - |path|
  {
    var n := |path| - 1;
    PathIsShort(db, path, n);
    CardSubset(Elements(path[..n]), db.Keys);
    var last := path[n];
    if HasParent(db, last) {
      var longer := path + [Entries(db, last)["Parent"]];
      PathIsShort(db, longer, n + 1);
      CardSubset(Elements(longer[..n + 1]), db.Keys);
      chain := PathToChain(db, longer);
    } else if last == "Common" {
      chain := path;
    } else {
      chain := path + ["Common"];
    }
  }

  /** The chain from a group is unique: one is a prefix of no other. */
  lemma ChainStep(db: Database, chain: seq<string>, key: string)
    requires IsChain(db, chain) && chain[0] == key
    ensures NextGroup(db, key) == if |chain| == 1 then None else Some(chain[1])
    ensures |chain| > 1 ==> IsChain(db, chain[1..])
  {
  }

  ghost predicate Terminates(db: Database, key: string) {
    exists chain :: IsChain(db, chain) && chain[0] == key
  }

  lemma {:induction false} ChainsAgree(db: Database, a: seq<string>, b: seq<string>)
    requires IsChain(db, a) && IsChain(db, b) && a[0] == b[0]
    ensures a == b
    decreases |a|
  {
    ChainStep(db, a, a[0]);
    ChainStep(db, b, b[0]);
    if |a| > 1 {
      ChainsAgree(db, a[1..], b[1..]);
      assert a == [a[0]] + a[1..] && b == [b[0]] + b[1..];
    } else {
      assert a == [a[0]] && b == [b[0]];
    }
  }

  /** A chain follows a walk along parent links that starts at the same group. */
  lemma {:induction false} ChainFollowsPath(db: Database, chain: seq<string>, path: seq<string>, i: nat)
    requires IsChain(db, chain) && IsPath(db, path) && chain[0] == path[0] && i < |path|
    ensures i < |chain| && chain[i] == path[i]
  {
    if i > 0 {
      ChainFollowsPath(db, chain, path, i - 1);
      assert NextGroup(db, path[i - 1]) == Some(path[i]);
      assert i < |chain|;
      assert NextGroup(db, chain[i - 1]) == Some(chain[i]);
    }
  }

  /** `loadModem` ends for every group exactly if the parent links have no cycle
      and the group Common has no parent. */
  lemma TerminatesIff(db: Database)
    ensures (forall key: string :: Terminates(db, key)) <==> Acyclic(db) && !HasParent(db, "Common")
  {
    if Acyclic(db) && !HasParent(db, "Common") {
      forall key: string ensures Terminates(db, key) {
        var chain := PathToChain(db, [key]);
      }
    }
    if forall key: string :: Terminates(db, key) {
      CommonIsRoot(db);
      forall path | IsPath(db, path) && |path| >= 2 ensures path[0] != path[|path| - 1] {
        assert Terminates(db, path[0]);
        var chain :| IsChain(db, chain) && chain[0] == path[0];
        NoReturn(db, chain, path);
      }
    }
  }

  lemma NoReturn(db: Database, chain: seq<string>, path: seq<string>)
    requires IsChain(db, chain) && IsPath(db, path) && |path| >= 2 && chain[0] == path[0]
    ensures path[0] != path[|path| - 1]
  {
    var n := |path| - 1;
    ChainFollowsPath(db, chain, path, n);
    if path[0] == path[n] {
      ChainsAgree(db, chain, chain[n..]);
    }
  }

  lemma CommonIsRoot(db: Database)
    requires forall key: string :: Terminates(db, key)
    ensures !HasParent(db, "Common")
  {
    assert Terminates(db, "Common");
    var chain :| IsChain(db, chain) && chain[0] == "Common";
    var n := |chain| - 1;
    assert NextGroup(db, chain[n]) == None;
    assert chain[n] == "Common";
    ChainsAgree(db, chain, chain[n..]);
  }

  // ----- what is loaded

  predicate Bang(key: string) {
    key != "" && key[0] == '!'
  }

  /** One group: what the dictionary has already takes precedence. */
  function LoadOne(entries: Group, key: string, dict: Group): Group {
    var merged := entries + (dict - {"Parent"});
    if "Name" !in merged || Bang(key) then merged["Name" := key] else merged
  }

  function Load(db: Database, chain: seq<string>, dict: Group): Group {
    if chain == [] then dict
    else Load(db, chain[1..], LoadOne(Entries(db, chain[0]), chain[0], dict))
  }

  /** The first group on the chain that defines `attr`. */
  function Nearest(db: Database, chain: seq<string>, attr: string): Option<string> {
    if chain == [] then None
    else if attr in Entries(db, chain[0]) then Some(Entries(db, chain[0])[attr])
    else Nearest(db, chain[1..], attr)
  }

  lemma {:induction false} NearestIsFirst(db: Database, chain: seq<string>, attr: string) returns (i: nat)
    ensures i <= |chain| && forall j | 0 <= j < i :: attr !in Entries(db, chain[j])
    ensures if i == |chain| then Nearest(db, chain, attr) == None
            else attr in Entries(db, chain[i]) && Nearest(db, chain, attr) == Some(Entries(db, chain[i])[attr])
    decreases |chain|
  {
    if chain == [] || attr in Entries(db, chain[0]) {
      i := 0;
    } else {
      var k := NearestIsFirst(db, chain[1..], attr);
      i := k + 1;
    }
  }

  /** The last group on the chain with an exclamation mark. */
  function LastBang(chain: seq<string>): Option<string> {
    if chain == [] then None
    else if Bang(chain[|chain| - 1]) then Some(chain[|chain| - 1]) else LastBang(chain[..|chain| - 1])
  }

  function Lookup(d: Group, attr: string): Option<string> {
    if attr in d then Some(d[attr]) else None
  }

  function OrElse(a: Option<string>, b: Option<string>): Option<string> {
    if a.Some? then a else b
  }

  /** Every attribute but Name and Parent has the value of the nearest group on
      the chain that defines it, unless the dictionary had it before. */
  lemma {:induction false} AttributeIsNearest(db: Database, chain: seq<string>, dict: Group, attr: string)
    requires attr != "Name" && attr != "Parent"
    ensures Lookup(Load(db, chain, dict), attr) == OrElse(Lookup(dict, attr), Nearest(db, chain, attr))
    decreases |chain|
  {
    if chain != [] {
      AttributeIsNearest(db, chain[1..], LoadOne(Entries(db, chain[0]), chain[0], dict), attr);
    }
  }

  lemma {:induction false} NoParentLeft(db: Database, chain: seq<string>, dict: Group)
    requires IsChain(db, chain)
    ensures "Parent" !in Load(db, chain, dict)
    decreases |chain|
  {
    var next := LoadOne(Entries(db, chain[0]), chain[0], dict);
    ChainStep(db, chain, chain[0]);
    if |chain| > 1 {
      NoParentLeft(db, chain[1..], next);
    } else {
      assert Load(db, chain, dict) == Load(db, chain[1..], next) == next;
    }
  }

  lemma {:induction false} BangFirst(chain: seq<string>)
    requires chain != []
    ensures LastBang(chain)
         == OrElse(LastBang(chain[1..]), if Bang(chain[0]) then Some(chain[0]) else None)
    decreases |chain|
  {
    var n := |chain| - 1;
    if n > 0 && !Bang(chain[n]) {
      BangFirst(chain[..n]);
      assert chain[..n][1..] == chain[1..][..n - 1];
    }
  }

  lemma {:induction false} NameKept(db: Database, chain: seq<string>, dict: Group)
    requires "Name" in dict
    ensures Lookup(Load(db, chain, dict), "Name") == OrElse(LastBang(chain), Some(dict["Name"]))
    decreases |chain|
  {
    if chain != [] {
      BangFirst(chain);
      NameKept(db, chain[1..], LoadOne(Entries(db, chain[0]), chain[0], dict));
    }
  }

  /** The name of a modem: the last group on its chain that starts with an
      exclamation mark, else its own Name entry, else its key. */
  lemma NameRule(db: Database, chain: seq<string>)
    requires chain != []
    ensures Lookup(Load(db, chain, map[]), "Name")
         == OrElse(LastBang(chain), OrElse(Lookup(Entries(db, chain[0]), "Name"), Some(chain[0])))
  {
    BangFirst(chain);
    NameKept(db, chain[1..], LoadOne(Entries(db, chain[0]), chain[0], map[]));
  }

  // ----- the objects

  class CharDict {
    var dict: Group

    constructor ()
      ensures dict == map[]
    {
      dict := map[];
    }
  }

  class ModemDatabase {
    const db: Database

    constructor (db: Database)
      ensures this.db == db
    {
      this.db := db;
    }

    method CopyMissing(entries: Group, d: CharDict)
      modifies d
      ensures d.dict == entries + old(d.dict)
    {
      var todo := entries.Keys;
      while todo != {}
        invariant todo <= entries.Keys <= d.dict.Keys + todo
        invariant entries + d.dict == entries + old(d.dict)
        decreases |todo|
      {
        var k :| k in todo;
        todo := todo - {k};
        if k !in d.dict {
          d.dict := d.dict[k := entries[k]];
        }
      }
    }

    method LoadModem(key: string, d: CharDict, ghost chain: seq<string>)
      requires IsChain(db, chain) && chain[0] == key
      modifies d
      ensures d.dict == Load(db, chain, old(d.dict))
      decreases |chain|
    {
      var entries := if key in db then db[key] else map[];
      d.dict := d.dict - {"Parent"};
      CopyMissing(entries, d);
      if "Name" !in d.dict || (key != "" && key[0] == '!') {
        d.dict := d.dict["Name" := key];
      }
      assert d.dict == LoadOne(Entries(db, key), key, old(d.dict));
      ChainStep(db, chain, key);
      if "Parent" in d.dict {
        LoadModem(d.dict["Parent"], d, chain[1..]);
      } else if key != "Common" {
        LoadModem("Common", d, chain[1..]);
      }
    }

    /** A modem loaded from scratch. */
    method Modem(key: string) returns (d: CharDict)
      requires Acyclic(db) && !HasParent(db, "Common")
      ensures "Parent" !in d.dict
      ensures forall chain, attr ::
                IsChain(db, chain) && chain[0] == key && attr != "Name" && attr != "Parent" ==>
                Lookup(d.dict, attr) == Nearest(db, chain, attr)
      ensures forall chain | IsChain(db, chain) && chain[0] == key ::
                Lookup(d.dict, "Name") == OrElse(LastBang(chain), OrElse(Lookup(Entries(db, key), "Name"), Some(key)))
    {
      d := new CharDict();
      ghost var path := PathToChain(db, [key]);
      LoadModem(key, d, path);
      NoParentLeft(db, path, map[]);
      forall chain, attr | IsChain(db, chain) && chain[0] == key && attr != "Name" && attr != "Parent"
        ensures Lookup(d.dict, attr) == Nearest(db, chain, attr)
      {
        ChainsAgree(db, chain, path);
        AttributeIsNearest(db, chain, map[], attr);
      }
      forall chain | IsChain(db, chain) && chain[0] == key
        ensures Lookup(d.dict, "Name") == OrElse(LastBang(chain), OrElse(Lookup(Entries(db, key), "Name"), Some(key)))
      {
        ChainsAgree(db, chain, path);
        NameRule(db, chain);
      }
    }
  }
}
