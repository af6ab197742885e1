/** The result cache of dcoprss (dcoprss/cache.cpp, dcoprss/query.cpp): calls
    are looked up by a string made of server, method and marshalled arguments. */
module RpcCache {
  import opened Sequences
  import opened Text
  import opened XmlRpc
  import opened RpcRoundTrip

  const LIFETIME: int := 3600

  datatype Result = Result(
    success: bool, errorCode: int, errorString: string, data: List<Value>,
    server: string, methodName: string, args: List<Value>)

  datatype CacheEntry = CacheEntry(timeStamp: int, result: Result) {
    predicate IsValid(now: int) {
      now - timeStamp < LIFETIME
    }
  }

  type Dict = map<string, CacheEntry>

  function Key(server: string, name: string, args: List<Value>): string {
    server + "__" + name + "__" + MarshalAll(args)
  }

  function KeyOf(r: Result): string {
    Key(r.server, r.methodName, r.args)
  }

  // ----- the key decodes uniquely

  /** A method name without the separator's character, and without markup. */
  ghost predicate PlainMethod(name: string) {
    '_' !in name && '<' !in name
  }

  ghost predicate GoodArgs(args: List<Value>) {
    AllSendable(args) && AllSupported(args)
  }

  lemma {:induction false} TextBeforeMarkup(p: string, a: string)
    requires '<' !in p && (a == "" || a[0] == '<')
    ensures TextLength(p + a) == |p|
  {
    if p == "" {
      assert p + a == a;
    } else {
      assert p[0] in p && forall c <- p[1..] :: c in p;
      TextBeforeMarkup(p[1..], a);
      assert (p + a)[1..] == p[1..] + a;
    }
  }

  lemma SplitAtMarkup(p: string, q: string, a: string, b: string)
    requires '<' !in p && '<' !in q
    requires (a == "" || a[0] == '<') && (b == "" || b[0] == '<')
    requires p + a == q + b
    ensures p == q && a == b
  {
    TextBeforeMarkup(p, a);
    TextBeforeMarkup(q, b);
    assert (p + a)[..|p|] == p && (q + b)[..|q|] == q;
    assert (p + a)[|p|..] == a && (q + b)[|q|..] == b;
  }

  /** Length of what follows the last underscore. */
  ghost function LastPart(s: string): nat {
    if s == "" || s[|s| - 1] == '_' then 0 else 1 + LastPart(s[..|s| - 1])
  }

  lemma {:induction false} LastPartOf(s: string, m: string)
    requires '_' !in m && s != "" && s[|s| - 1] == '_'
    ensures LastPart(s + m) == |m|
  {
    if m == "" {
      assert s + m == s;
    } else {
      var init := m[..|m| - 1];
      assert m[|m| - 1] in m && forall c <- init :: c in m;
      LastPartOf(s, init);
      assert (s + m)[..|s + m| - 1] == s + init;
    }
  }

  lemma SplitAtSeparator(s: string, m: string, t: string, n: string)
    requires '_' !in m && '_' !in n
    requires s + "__" + m == t + "__" + n
    ensures s == t && m == n
  {
    LastPartOf(s + "__", m);
    LastPartOf(t + "__", n);
    var p, q := s + "__" + m, t + "__" + n;
    assert p[..|s|] == s && q[..|t|] == t;
    assert p[|s| + 2..] == m && q[|t| + 2..] == n;
  }

  /** Exactly when two calls share a key: the same arguments, and the same text
      once server and method are joined. */
  lemma KeyEqualIff(s: string, m: string, vs: List<Value>, t: string, n: string, ws: List<Value>)
    requires '<' !in s && '<' !in t && '<' !in m && '<' !in n && GoodArgs(vs) && GoodArgs(ws)
    ensures Key(s, m, vs) == Key(t, n, ws) <==> s + "__" + m == t + "__" + n && vs == ws
  {
    var p, q := s + "__" + m + "__", t + "__" + n + "__";
    if Key(s, m, vs) == Key(t, n, ws) {
      ArgumentsBegin(vs);
      ArgumentsBegin(ws);
      SplitAtMarkup(p, q, MarshalAll(vs), MarshalAll(ws));
      assert p[..|p| - 2] == s + "__" + m && q[..|q| - 2] == t + "__" + n;
      ArgumentsUnique(vs, ws);
    }
  }

  /** On one server, which is all a QueryService has, equal keys mean equal
      calls whatever the methods are called. */
  lemma KeyUniqueOnServer(s: string, m: string, vs: List<Value>, n: string, ws: List<Value>)
    requires '<' !in s && '<' !in m && '<' !in n && GoodArgs(vs) && GoodArgs(ws)
    requires Key(s, m, vs) == Key(s, n, ws)
    ensures m == n && vs == ws
  {
    KeyEqualIff(s, m, vs, s, n, ws);
    var p, q := s + "__" + m, s + "__" + n;
    assert p[|s| + 2..] == m && q[|s| + 2..] == n;
  }

  /** On several servers too if no method has an underscore. */
  lemma KeyUnique(s: string, m: string, vs: List<Value>, t: string, n: string, ws: List<Value>)
    requires '<' !in s && '<' !in t && PlainMethod(m) && PlainMethod(n) && GoodArgs(vs) && GoodArgs(ws)
    requires Key(s, m, vs) == Key(t, n, ws)
    ensures s == t && m == n && vs == ws
  {
    KeyEqualIff(s, m, vs, t, n, ws);
    SplitAtSeparator(s, m, t, n);
  }

  lemma ArgumentsBegin(vs: List<Value>)
    ensures MarshalAll(vs) == "" || MarshalAll(vs)[0] == '<'
  {
    if vs.Cons? {
      MarshalOpens(vs.head);
    }
  }

  /** Two calls to different servers that share a key. */
  lemma UnderscoreCollides()
    ensures Key("a", "b__c", Nil) == Key("a__b", "c", Nil)
  {
    assert "a" + "__" + "b__c" == "a__b" + "__" + "c";
  }

  // ----- the service as a machine

  /** Calls made by the application and results arriving from the server, each
      with the clock reading. */
  datatype Event =
    | Call(server: string, name: string, args: List<Value>, now: int)
    | Reply(result: Result, now: int)

  function Lookup(dict: Dict, key: string, now: int): Option<Result> {
    if key in dict && dict[key].IsValid(now) then Some(dict[key].result) else None
  }

  function Update(dict: Dict, result: Result, now: int): Dict {
    if KeyOf(result) in dict then dict else dict[KeyOf(result) := CacheEntry(now, result)]
  }

  /** The common part of the result slots. */
  function OnResult(dict: Dict, result: Result, now: int): Dict {
    if result.success then Update(dict, result, now) else dict
  }

  function Served(dict: Dict, e: Event): Option<Result> {
    match e
    case Call(s, m, args, now) => Lookup(dict, Key(s, m, args), now)
    case Reply(_, _) => None
  }

  /** A result served from the cache goes through the same slot as one from the
      server. */
  function Step(dict: Dict, e: Event): Dict {
    match e
    case Reply(result, now) => OnResult(dict, result, now)
    case Call(_, _, _, now) =>
      match Served(dict, e)
      case Some(r) => OnResult(dict, r, now)
      case None => dict
  }

  function After(events: seq<Event>): Dict {
    if events == [] then map[] else Step(After(events[..|events| - 1]), events[|events| - 1])
  }

  /** Names without markup characters, arguments that can be marshalled. */
  ghost predicate CleanEvent(e: Event) {
    match e
    case Call(s, m, args, _) => '<' !in s && '<' !in m && GoodArgs(args)
    case Reply(r, _) => '<' !in r.server && '<' !in r.methodName && GoodArgs(r.args)
  }

  ghost predicate ToServer(e: Event, server: string) {
    match e
    case Call(s, _, _, _) => s == server
    case Reply(r, _) => r.server == server
  }

  ghost predicate PlainName(e: Event) {
    match e
    case Call(_, m, _, _) => PlainMethod(m)
    case Reply(r, _) => PlainMethod(r.methodName)
  }

  ghost predicate Answers(e: Event, key: string) {
    e.Reply? && e.result.success && KeyOf(e.result) == key
  }

  ghost predicate Stores(e: Event, key: string, entry: CacheEntry) {
    Answers(e, key) && e.now == entry.timeStamp && e.result == entry.result
  }

  /** Every entry was stored by a successful reply for its key. */
  lemma {:induction false} EntryHasSource(events: seq<Event>, key: string) returns (i: nat)
    requires key in After(events)
    ensures i < |events| && Stores(events[i], key, After(events)[key])
    decreases |events|, 1
  {
    assert events != [];
    var init, last := events[..|events| - 1], events[|events| - 1];
    if key in After(init) {
      i := EntryHasSource(init, key);
      assert events[i] == init[i];
    } else {
      i := |events| - 1;
      if last.Call? && Served(After(init), last).Some? {
        ServedIsStored(init, last);
      }
    }
  }

  lemma ServedIsStored(events: seq<Event>, e: Event)
    requires e.Call? && Served(After(events), e).Some?
    ensures Step(After(events), e) == After(events)
    decreases |events|, 2
  {
    var key := Key(e.server, e.name, e.args);
    var i := EntryHasSource(events, key);
  }

  /** In every run, whatever the cache serves came from a successful call with
      the same arguments and the same joined names, stored less than an hour
      before. */
  lemma ServedIsStoredRecently(events: seq<Event>, n: nat) returns (i: nat)
    requires n < |events| && events[n].Call? && Served(After(events[..n]), events[n]).Some?
    requires forall k | 0 <= k <= n :: CleanEvent(events[k])
    ensures i < n && events[i].Reply?
    ensures var c, r := events[n], events[i];
            && r.result.success
            && r.result == Served(After(events[..n]), c).value
            && r.result.server + "__" + r.result.methodName == c.server + "__" + c.name && r.result.args == c.args
            && c.now - r.now < 3600
  {
    var c := events[n];
    i := EntryHasSource(events[..n], Key(c.server, c.name, c.args));
    assert events[..n][i] == events[i];
    var r := events[i].result;
    assert CleanEvent(events[i]) && CleanEvent(events[n]);
    KeyEqualIff(r.server, r.methodName, r.args, c.server, c.name, c.args);
  }

  /** With the one server of a QueryService it is the same call. */
  lemma ServedIsGenuine(server: string, events: seq<Event>, n: nat) returns (i: nat)
    requires n < |events| && events[n].Call? && Served(After(events[..n]), events[n]).Some?
    requires forall k | 0 <= k <= n :: CleanEvent(events[k]) && ToServer(events[k], server)
    ensures i < n && events[i].Reply?
    ensures var c, r := events[n], events[i];
            && r.result.success
            && r.result == Served(After(events[..n]), c).value
            && r.result.server == c.server && r.result.methodName == c.name && r.result.args == c.args
            && c.now - r.now < 3600
  {
    i := ServedIsStoredRecently(events, n);
    var c, r := events[n], events[i].result;
    assert ToServer(events[i], server) && ToServer(events[n], server);
    assert (r.server + "__" + r.methodName)[|server| + 2..] == r.methodName;
    assert (c.server + "__" + c.name)[|server| + 2..] == c.name;
  }

  /** With several servers too, if no method has an underscore. */
  lemma ServedIsGenuineAnywhere(events: seq<Event>, n: nat) returns (i: nat)
    requires n < |events| && events[n].Call? && Served(After(events[..n]), events[n]).Some?
    requires forall k | 0 <= k <= n :: CleanEvent(events[k]) && PlainName(events[k])
    ensures i < n && events[i].Reply?
    ensures var c, r := events[n], events[i];
            && r.result.success
            && r.result == Served(After(events[..n]), c).value
            && r.result.server == c.server && r.result.methodName == c.name && r.result.args == c.args
            && c.now - r.now < 3600
  {
    i := ServedIsStoredRecently(events, n);
    assert PlainName(events[i]) && PlainName(events[n]);
    SplitAtSeparator(events[i].result.server, events[i].result.methodName, events[n].server, events[n].name);
  }

  // ----- which reply counts

  /** The first successful reply for a key. */
  ghost function FirstReply(events: seq<Event>, key: string): Option<nat> {
    if events == [] then None
    else
      var i, last := FirstReply(events[..|events| - 1], key), events[|events| - 1];
      if i.Some? then i
      else if Answers(last, key) then Some(|events| - 1)
      else None
  }

  lemma {:induction false} FirstReplyIsFirst(events: seq<Event>, key: string)
    ensures match FirstReply(events, key)
            case None => forall k | 0 <= k < |events| :: !Answers(events[k], key)
            case Some(i) => i < |events| && Answers(events[i], key) && forall k | 0 <= k < i :: !Answers(events[k], key)
  {
    if events != [] {
      var init := events[..|events| - 1];
      FirstReplyIsFirst(init, key);
      assert forall k | 0 <= k < |init| :: init[k] == events[k];
    }
  }

  lemma {:induction false} FirstReplyStored(events: seq<Event>, key: string)
    ensures match FirstReply(events, key)
            case None => key !in After(events)
            case Some(i) =>
              && i < |events| && events[i].Reply? && key in After(events)
              && After(events)[key] == CacheEntry(events[i].now, events[i].result)
  {
    if events != [] {
      var init, last := events[..|events| - 1], events[|events| - 1];
      FirstReplyStored(init, key);
      if last.Call? && Served(After(init), last).Some? {
        ServedIsStored(init, last);
      }
    }
  }

  /** A call is served iff the first successful reply for its key came less than
      the lifetime before; later replies never count. */
  lemma ServedIff(events: seq<Event>, c: Event)
    requires c.Call?
    ensures var i := FirstReply(events, Key(c.server, c.name, c.args));
            && (i.Some? ==> i.value < |events| && events[i.value].Reply?)
            && (Served(After(events), c).Some? <==> i.Some? && c.now - events[i.value].now < 3600)
            && (Served(After(events), c).Some? ==> Served(After(events), c).value == events[i.value].result)
  {
    FirstReplyStored(events, Key(c.server, c.name, c.args));
  }

  /** `updateCache` inserts only where nothing is stored, so entries never
      change. */
  lemma {:induction false} EntryStays(events: seq<Event>, n: nat, key: string)
    requires n <= |events| && key in After(events[..n])
    ensures key in After(events) && After(events)[key] == After(events[..n])[key]
  {
    if n == |events| {
      assert events[..n] == events;
    } else {
      var init := events[..|events| - 1];
      assert init[..n] == events[..n];
      EntryStays(init, n, key);
    }
  }

  /** Hence a call whose entry has expired is never served from the cache again,
      however often the server answers it. */
  lemma ExpiredForever(events: seq<Event>, n: nat, m: nat)
    requires n <= m < |events| && events[n].Call? && events[m].Call? && events[n].now <= events[m].now
    requires Key(events[n].server, events[n].name, events[n].args)
          == Key(events[m].server, events[m].name, events[m].args)
    requires var key := Key(events[n].server, events[n].name, events[n].args);
             key in After(events[..n]) && !After(events[..n])[key].IsValid(events[n].now)
    ensures Served(After(events[..m]), events[m]) == None
  {
    assert events[..m][..n] == events[..n];
    EntryStays(events[..m], n, Key(events[n].server, events[n].name, events[n].args));
  }

  // ----- the source's classes

  class Cache {
    var dict: map<string, CacheEntry>

    constructor ()
      ensures dict == map[]
    {
      dict := map[];
    }

    method GetCacheKey(server: string, name: string, args: List<Value>) returns (key: string)
      ensures key == Key(server, name, args)
    {
      key := server + "__";
      key := key + name + "__";
      var it := args;
      while it.Cons?
        invariant key + MarshalAll(it) == Key(server, name, args)
        decreases it
      {
        Assoc(key, Marshal(it.head), MarshalAll(it.tail));
        key := key + Marshal(it.head);
        it := it.tail;
      }
      assert key + "" == key;
    }

    method Find(key: string) returns (entry: Option<CacheEntry>)
      ensures entry == if key in dict then Some(dict[key]) else None
    {
      if key in dict {
        return Some(dict[key]);
      }
      return None;
    }

    method Touch(key: string, now: int)
      modifies this
      ensures dict == if key in old(dict) then old(dict)[key := old(dict)[key].(timeStamp := now)] else old(dict)
    {
      var entry := Find(key);
      if entry.None? {
        return;
      }
      dict := dict[key := entry.value.(timeStamp := now)];
    }

    method Insert(key: string, result: Result, now: int)
      modifies this
      ensures dict == old(dict)[key := CacheEntry(now, result)]
    {
      dict := dict[key := CacheEntry(now, result)];
    }
  }

  class QueryService {
    const cache: Cache
    const url: string

    constructor (cache: Cache, url: string)
      ensures this.cache == cache && this.url == url
    {
      this.cache := cache;
      this.url := url;
    }

    method UpdateCache(result: Result, now: int)
      modifies cache
      ensures cache.dict == Update(old(cache.dict), result, now)
    {
      var key := cache.GetCacheKey(result.server, result.methodName, result.args);
      var entry := cache.Find(key);
      if entry.None? {
        cache.Insert(key, result, now);
      }
    }

    /** The slots `slotFoundFeeds` and the like, up to the emitted signal. */
    method SlotResult(result: Result, now: int)
      modifies cache
      ensures cache.dict == OnResult(old(cache.dict), result, now)
    {
      if !result.success {
        return;
      }
      UpdateCache(result, now);
    }

    /** `served` is the result passed to the slot at once; None means the server
        is asked. */
    method CachedCall(name: string, args: List<Value>, now: int) returns (served: Option<Result>)
      modifies cache
      ensures served == Served(old(cache.dict), Call(url, name, args, now))
      ensures cache.dict == Step(old(cache.dict), Call(url, name, args, now))
    {
      var key := cache.GetCacheKey(url, name, args);
      var entry := cache.Find(key);
      if entry.Some? && entry.value.IsValid(now) {
        served := Some(entry.value.result);
        SlotResult(entry.value.result, now);
      } else {
        served := None;
      }
    }
  }
}
