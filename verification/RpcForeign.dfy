/** Values as other servers write them (dcoprss/xmlrpciface.cpp): untyped text,
    `i4` for `int`, 1 and 0 for true and false, tags in any case, members of a
    structure in any order, numbers that are too big and types nobody knows. */
module RpcForeign {
  import opened Sequences
  import opened Text
  import opened XmlRpc
  import opened RpcRoundTrip
  import opened RpcMessages

  datatype Wire =
    | Untyped(text: string)
    | Chars(tag: string, text: string)
    | Number(tag: string, i: int)
    | Truth(tag: string, text: string)
    | Items(tag: string, items: List<Wire>)
    | Members(tag: string, members: List<Entry>)
    | Alien(tag: string, text: string)

  datatype Entry = Entry(key: string, value: Wire)

  predicate Readable(s: string) {
    CleanText(s) && !Blank(s)
  }

  /** The types the source reads, those included that are not modelled. */
  predicate Known(name: string) {
    || name == "string" || name == "i4" || name == "int" || name == "double" || name == "boolean"
    || name == "base64" || name == "datetime" || name == "datetime.iso8601" || name == "array" || name == "struct"
  }

  ghost predicate Sent(w: Wire) {
    match w
    case Untyped(t) => Readable(t)
    case Chars(tag, t) => Name(tag) && Lower(tag) == "string" && Readable(t)
    case Number(tag, i) => Name(tag) && (Lower(tag) == "int" || Lower(tag) == "i4")
    case Truth(tag, t) =>
      && Name(tag) && Lower(tag) == "boolean" && Readable(t)
      && (t == "1" || t == "0" || Lower(t) == "true" || Lower(t) == "false")
    case Items(tag, items) => Name(tag) && Lower(tag) == "array" && AllSent(items)
    case Members(tag, members) => Name(tag) && Lower(tag) == "struct" && EntriesSent(members)
    case Alien(tag, t) => Name(tag) && !Known(Lower(tag)) && Readable(t)
  }

  ghost predicate AllSent(ws: List<Wire>) {
    ws.Nil? || (Sent(ws.head) && AllSent(ws.tail))
  }

  ghost predicate EntriesSent(es: List<Entry>) {
    es.Nil? || (Readable(es.head.key) && Sent(es.head.value) && EntriesSent(es.tail))
  }

  // ----- the markup, its tree and its meaning

  function Markup(w: Wire): string
    decreases w, 1
  {
    match w
    case Untyped(t) => Wrap("value", t)
    case _ => Wrap("value", Typed(w))
  }

  function Typed(w: Wire): string
    requires !w.Untyped?
    decreases w, 0
  {
    match w
    case Chars(tag, t) => Wrap(tag, t)
    case Number(tag, i) => Wrap(tag, IntText(i))
    case Truth(tag, t) => Wrap(tag, t)
    case Items(tag, items) => Wrap(tag, Wrap("data", MarkupAll(items)))
    case Members(tag, members) => Wrap(tag, MarkupEntries(members))
    case Alien(tag, t) => Wrap(tag, t)
  }

  function MarkupAll(ws: List<Wire>): string {
    match ws
    case Nil => ""
    case Cons(w, rest) => Markup(w) + MarkupAll(rest)
  }

  function MarkupEntry(e: Entry): string
    decreases e
  {
    Wrap("member", Wrap("name", e.key) + Markup(e.value))
  }

  function MarkupEntries(es: List<Entry>): string {
    match es
    case Nil => ""
    case Cons(e, rest) => MarkupEntry(e) + MarkupEntries(rest)
  }

  ghost function WireTree(w: Wire): Node
    decreases w, 1
  {
    match w
    case Untyped(t) => Leaf("value", t)
    case _ => Only("value", TypedTree(w))
  }

  ghost function TypedTree(w: Wire): Node
    requires !w.Untyped?
    decreases w, 0
  {
    match w
    case Chars(tag, t) => Leaf(tag, t)
    case Number(tag, i) => Leaf(tag, IntText(i))
    case Truth(tag, t) => Leaf(tag, t)
    case Items(tag, items) => Only(tag, Element("data", WireTrees(items)))
    case Members(tag, members) => Element(tag, EntryTrees(members))
    case Alien(tag, t) => Leaf(tag, t)
  }

  ghost function WireTrees(ws: List<Wire>): List<Node> {
    match ws
    case Nil => Nil
    case Cons(w, rest) => Cons(WireTree(w), WireTrees(rest))
  }

  ghost function EntryTree(e: Entry): Node
    decreases e
  {
    Element("member", Cons(Leaf("name", e.key), Cons(WireTree(e.value), Nil)))
  }

  ghost function EntryTrees(es: List<Entry>): List<Node> {
    match es
    case Nil => Nil
    case Cons(e, rest) => Cons(EntryTree(e), EntryTrees(rest))
  }

  function Meaning(w: Wire): Value
    decreases w
  {
    match w
    case Untyped(t) => Str(t)
    case Chars(_, t) => Str(t)
    case Number(_, i) => Int(if Int32(i) then i else 0)
    case Truth(_, t) => Bool(t == "1" || Lower(t) == "true")
    case Items(_, items) => Array(Meanings(items))
    case Members(_, members) => Struct(Collected(members, Nil))
    case Alien(_, _) => Other
  }

  function Meanings(ws: List<Wire>): List<Value> {
    match ws
    case Nil => Nil
    case Cons(w, rest) => Cons(Meaning(w), Meanings(rest))
  }

  /** The members put into a map one after the other. */
  function Collected(es: List<Entry>, acc: List<Member>): List<Member> {
    match es
    case Nil => acc
    case Cons(e, rest) => Collected(rest, Insert(acc, e.key, Meaning(e.value)))
  }

  // ----- parsing

  lemma {:induction false} WireParses(w: Wire, x: string)
    requires Sent(w)
    ensures Opens(Markup(w)) && ParseElement(Markup(w) + x) == Good(WireTree(w), x)
    decreases w, 2
  {
    if w.Untyped? {
      UntypedParses(w.text, x);
    } else {
      TypedParses(w, Close("value") + x);
      TypedValueParses(Typed(w), TypedTree(w), x);
    }
  }

  lemma UntypedParses(t: string, x: string)
    requires Readable(t)
    ensures Opens(Wrap("value", t)) && ParseElement(Wrap("value", t) + x) == Good(Leaf("value", t), x)
  {
    WrapOpens("value", t);
    LeafParses("value", t, x);
  }

  lemma TypedValueParses(typed: string, n: Node, x: string)
    requires Opens(typed) && ParseElement(typed + (Close("value") + x)) == Good(n, Close("value") + x)
    ensures Opens(Wrap("value", typed)) && ParseElement(Wrap("value", typed) + x) == Good(Only("value", n), x)
  {
    WrapOpens("value", typed);
    ValueParses(typed, n, x);
  }

  lemma {:induction false} TypedParses(w: Wire, x: string)
    requires Sent(w) && !w.Untyped?
    ensures Opens(Typed(w)) && ParseElement(Typed(w) + x) == Good(TypedTree(w), x)
    decreases w, 1
  {
    match w
    case Chars(tag, t) =>
      WrapOpens(tag, t);
      LeafParses(tag, t, x);
    case Number(tag, i) =>
      IntIsClean(i);
      WrapOpens(tag, IntText(i));
      LeafParses(tag, IntText(i), x);
    case Truth(tag, t) =>
      WrapOpens(tag, t);
      LeafParses(tag, t, x);
    case Items(tag, items) =>
      var y := Close(tag) + x;
      WrapOpens("data", MarkupAll(items));
      WrapOpens(tag, Wrap("data", MarkupAll(items)));
      CloseStarts("data", y);
      WiresParse(items, Close("data") + y);
      WrapParses("data", MarkupAll(items), WireTrees(items), y);
      OnlyParses(tag, Wrap("data", MarkupAll(items)), Element("data", WireTrees(items)), x);
    case Members(tag, members) =>
      WrapOpens(tag, MarkupEntries(members));
      CloseStarts(tag, x);
      EntriesParse(members, Close(tag) + x);
      WrapParses(tag, MarkupEntries(members), EntryTrees(members), x);
    case Alien(tag, t) =>
      WrapOpens(tag, t);
      LeafParses(tag, t, x);
  }

  lemma {:induction false} WiresParse(ws: List<Wire>, y: string)
    requires AllSent(ws) && ParseContent(y) == Good(Nil, y)
    ensures ParseContent(MarkupAll(ws) + y) == Good(WireTrees(ws), y)
    decreases ws, 0
  {
    if ws.Nil? {
      assert MarkupAll(ws) + y == y;
    } else {
      var rest := MarkupAll(ws.tail) + y;
      WiresParse(ws.tail, y);
      WireParses(ws.head, rest);
      ElementFirst(Markup(ws.head), WireTree(ws.head), rest, WireTrees(ws.tail), y);
      Assoc(Markup(ws.head), MarkupAll(ws.tail), y);
    }
  }

  lemma {:induction false} EntriesParse(es: List<Entry>, y: string)
    requires EntriesSent(es) && ParseContent(y) == Good(Nil, y)
    ensures ParseContent(MarkupEntries(es) + y) == Good(EntryTrees(es), y)
    decreases es, 0
  {
    if es.Nil? {
      assert MarkupEntries(es) + y == y;
    } else {
      var rest := MarkupEntries(es.tail) + y;
      EntriesParse(es.tail, y);
      EntryParses(es.head, rest);
      ElementFirst(MarkupEntry(es.head), EntryTree(es.head), rest, EntryTrees(es.tail), y);
      Assoc(MarkupEntry(es.head), MarkupEntries(es.tail), y);
    }
  }

  lemma {:induction false} EntryParses(e: Entry, x: string)
    requires Readable(e.key) && Sent(e.value)
    ensures Opens(MarkupEntry(e)) && ParseElement(MarkupEntry(e) + x) == Good(EntryTree(e), x)
    decreases e, 3
  {
    WireParses(e.value, Close("member") + x);
    MemberPairParses(e.key, Markup(e.value), WireTree(e.value), x);
  }

  // ----- nothing of it is dropped

  lemma {:induction false} WirePlain(w: Wire)
    requires Sent(w)
    ensures PlainNodes(Cons(WireTree(w), Nil))
    decreases w, 1
  {
    match w
    case Untyped(t) => LeafText("value", t);
    case _ => TypedPlain(w);
  }

  lemma {:induction false} TypedPlain(w: Wire)
    requires Sent(w) && !w.Untyped?
    ensures PlainNodes(Cons(TypedTree(w), Nil))
    decreases w, 0
  {
    match w
    case Chars(tag, t) => LeafText(tag, t);
    case Number(tag, i) =>
      IntIsClean(i);
      LeafText(tag, IntText(i));
    case Truth(tag, t) => LeafText(tag, t);
    case Items(tag, items) =>
      WiresPlain(items);
      assert PlainNodes(Cons(Element("data", WireTrees(items)), Nil));
    case Members(tag, members) => EntriesPlain(members);
    case Alien(tag, t) => LeafText(tag, t);
  }

  lemma {:induction false} WiresPlain(ws: List<Wire>)
    requires AllSent(ws)
    ensures PlainNodes(WireTrees(ws))
    decreases ws, 0
  {
    if ws.Cons? {
      WirePlain(ws.head);
      WiresPlain(ws.tail);
    }
  }

  lemma {:induction false} EntriesPlain(es: List<Entry>)
    requires EntriesSent(es)
    ensures PlainNodes(EntryTrees(es))
    decreases es, 0
  {
    if es.Cons? {
      WirePlain(es.head.value);
      LeafText("name", es.head.key);
      EntriesPlain(es.tail);
      assert EntryTree(es.head).children == Cons(Leaf("name", es.head.key), Cons(WireTree(es.head.value), Nil));
    }
  }

  // ----- reading

  lemma {:induction false} WireReads(w: Wire)
    requires Sent(w)
    ensures Demarshal(WireTree(w)) == Meaning(w)
    decreases w, 1
  {
    match w
    case Untyped(t) => UntypedReads(t);
    case Chars(tag, t) => TextOfNodes(t);
    case Number(tag, i) =>
      TextOfNodes(IntText(i));
      IntRoundTrip(i);
    case Truth(tag, t) => TextOfNodes(t);
    case Items(tag, items) => WiresRead(items);
    case Members(tag, members) => EntriesRead(members, Nil);
    case Alien(tag, t) => AlienReads(tag, t);
  }

  lemma AlienReads(tag: string, t: string)
    requires !Known(Lower(tag))
    ensures Demarshal(Only("value", Leaf(tag, t))) == Other
  {
  }

  lemma UntypedReads(t: string)
    ensures Demarshal(Leaf("value", t)) == Str(t)
  {
    TextOfNodes(t);
  }

  lemma {:induction false} WiresRead(ws: List<Wire>)
    requires AllSent(ws)
    ensures DemarshalAll(WireTrees(ws)) == Meanings(ws)
    decreases ws, 0
  {
    if ws.Cons? {
      WireReads(ws.head);
      WiresRead(ws.tail);
    }
  }

  lemma EntryParts(e: Entry)
    ensures MemberKey(EntryTree(e)) == e.key && MemberValue(EntryTree(e)) == Demarshal(WireTree(e.value))
  {
    var kids := EntryTree(e).children;
    TextOfNodes(e.key);
    assert FirstNamed(kids, "name") == Some(Leaf("name", e.key));
    assert FirstNamed(TextNodes(e.key), "value") == None;
    assert FirstNamed(kids, "value") == FirstNamed(kids.tail, "value") == Some(WireTree(e.value));
  }

  lemma {:induction false} EntriesRead(es: List<Entry>, acc: List<Member>)
    requires EntriesSent(es)
    ensures DemarshalMembers(EntryTrees(es), acc) == Collected(es, acc)
    decreases es, 0
  {
    if es.Cons? {
      WireReads(es.head.value);
      EntryParts(es.head);
      EntriesRead(es.tail, Insert(acc, es.head.key, Meaning(es.head.value)));
    }
  }

  /** Whatever form a value is sent in, its meaning is read, nested as it may be. */
  lemma ForeignRead(w: Wire)
    requires Sent(w)
    ensures ReadDocument(Markup(w)).Some? && Demarshal(ReadDocument(Markup(w)).value) == Meaning(w)
  {
    WireParses(w, "");
    assert Markup(w) + "" == Markup(w);
    WirePlain(w);
    NothingToDrop(Cons(WireTree(w), Nil));
    WireReads(w);
  }

  ghost predicate ReadsAs(markup: string, v: Value) {
    ReadDocument(markup).Some? && Demarshal(ReadDocument(markup).value) == v
  }

  /** Text without a type is a string. */
  lemma UntypedIsString(t: string)
    requires Readable(t)
    ensures ReadsAs("<value>" + t + "</value>", Str(t))
  {
    ForeignRead(Untyped(t));
    ValueTags(t);
  }

  /** `i4` is another name for a number. */
  lemma I4IsNumber(i: int)
    requires Int32(i)
    ensures ReadsAs("<value>" + ("<i4>" + IntText(i) + "</i4>") + "</value>", Int(i))
  {
    LowerClean("i4");
    ForeignRead(Number("i4", i));
    ValueTags(Wrap("i4", IntText(i)));
    WrapIs("i4", IntText(i));
    assert "<" + "i4" + ">" == "<i4>" && "</" + "i4" + ">" == "</i4>";
  }

  /** 1 is true and 0 is false. */
  lemma DigitIsTruth(t: string)
    requires t == "1" || t == "0"
    ensures ReadsAs("<value>" + ("<boolean>" + t + "</boolean>") + "</value>", Bool(t == "1"))
  {
    DigitReads(t);
    BooleanTags(t);
    ValueTags(Wrap("boolean", t));
  }

  lemma BooleanTags(inner: string)
    ensures Wrap("boolean", inner) == "<boolean>" + inner + "</boolean>"
  {
    WrapIs("boolean", inner);
    assert "<" + "boolean" + ">" == "<boolean>" && "</" + "boolean" + ">" == "</boolean>";
  }

  lemma DigitReads(t: string)
    requires t == "1" || t == "0"
    ensures ReadsAs(Wrap("value", Wrap("boolean", t)), Bool(t == "1"))
  {
    DigitSent(t);
    TruthReads("boolean", t);
  }

  lemma TruthReads(tag: string, t: string)
    requires Sent(Truth(tag, t))
    ensures ReadsAs(Wrap("value", Wrap(tag, t)), Bool(t == "1" || Lower(t) == "true"))
  {
    ForeignRead(Truth(tag, t));
  }

  lemma BooleanName()
    ensures Name("boolean") && Lower("boolean") == "boolean"
  {
    LowerClean("boolean");
  }

  lemma DigitSent(t: string)
    requires t == "1" || t == "0"
    ensures Sent(Truth("boolean", t)) && Lower(t) != "true"
  {
    BooleanName();
    DigitReadable(t);
  }

  lemma DigitReadable(t: string)
    requires t == "1" || t == "0"
    ensures Readable(t) && |Lower(t)| == 1
  {
    assert t[1..] == "" && Lower(t) == [LowerChar(t[0])] + Lower("");
    assert !IsSpace(t[0]);
  }

  lemma WrapIs(tag: string, inner: string)
    ensures Wrap(tag, inner) == ("<" + tag + ">") + inner + ("</" + tag + ">")
  {
  }

  lemma ValueTags(inner: string)
    ensures Wrap("value", inner) == "<value>" + inner + "</value>"
  {
    WrapIs("value", inner);
    assert "<" + "value" + ">" == "<value>" && "</" + "value" + ">" == "</value>";
  }

  // ----- structures

  /** Strictly ascending keys, as in every map. */
  ghost predicate Ascending(ms: List<Member>) {
    ms.Nil? || (KeyBelow(ms.head.key, ms.tail) && Ascending(ms.tail))
  }

  lemma {:induction false} LessTotal(a: string, b: string)
    ensures a == b || StringLess(a, b) || StringLess(b, a)
  {
    if a != "" && b != "" && a[0] == b[0] {
      LessTotal(a[1..], b[1..]);
      assert a == [a[0]] + a[1..] && b == [b[0]] + b[1..];
    }
  }

  lemma {:induction false} LessTransitive(a: string, b: string, c: string)
    requires StringLess(a, b) && StringLess(b, c)
    ensures StringLess(a, c)
  {
    if a != "" && a[0] == b[0] && b[0] == c[0] {
      LessTransitive(a[1..], b[1..], c[1..]);
    }
  }

  lemma {:induction false} BelowAll(key: string, ms: List<Member>)
    requires Ascending(ms) && (ms.Cons? ==> StringLess(key, ms.head.key))
    ensures KeyBelow(key, ms) && Lookup(ms, key) == Other
  {
    if ms.Cons? {
      StringLessIsStrict(key, ms.head.key);
      if ms.tail.Cons? {
        LessTransitive(key, ms.head.key, ms.tail.head.key);
      }
      BelowAll(key, ms.tail);
    }
  }

  lemma {:induction false} InsertBelow(low: string, ms: List<Member>, key: string, value: Value)
    requires KeyBelow(low, ms) && StringLess(low, key)
    ensures KeyBelow(low, Insert(ms, key, value))
  {
    if ms.Cons? {
      InsertBelow(low, ms.tail, key, value);
    }
  }

  /** Putting a value into a map replaces the one of the same key and no other. */
  lemma {:induction false} InsertLookup(ms: List<Member>, key: string, value: Value, k: string)
    requires Ascending(ms)
    ensures Ascending(Insert(ms, key, value))
    ensures Lookup(Insert(ms, key, value), k) == if k == key then value else Lookup(ms, k)
  {
    if ms.Cons? && ms.head.key != key {
      LessTotal(ms.head.key, key);
      if StringLess(key, ms.head.key) {
        BelowAll(key, ms);
      } else {
        InsertLookup(ms.tail, key, value, k);
        InsertBelow(ms.head.key, ms.tail, key, value);
      }
    }
  }

  /** The value of the last member with the key. */
  ghost function LastOf(es: List<Entry>, key: string, none: Value): Value {
    match es
    case Nil => none
    case Cons(e, rest) => LastOf(rest, key, if e.key == key then Meaning(e.value) else none)
  }

  lemma {:induction false} CollectedLookup(es: List<Entry>, acc: List<Member>, key: string)
    requires Ascending(acc)
    ensures Ascending(Collected(es, acc))
    ensures Lookup(Collected(es, acc), key) == LastOf(es, key, Lookup(acc, key))
  {
    if es.Cons? {
      InsertLookup(acc, es.head.key, Meaning(es.head.value), key);
      CollectedLookup(es.tail, Insert(acc, es.head.key, Meaning(es.head.value)), key);
    }
  }

  /** From a structure each member is read under its name, in whatever order they
      were sent; of two with the same name the last. */
  lemma MembersRead(tag: string, es: List<Entry>, key: string)
    requires Sent(Members(tag, es))
    ensures ReadDocument(Markup(Members(tag, es))).Some?
    ensures var v := Demarshal(ReadDocument(Markup(Members(tag, es))).value);
            MemberOf(v, key) == LastOf(es, key, Other)
  {
    ForeignRead(Members(tag, es));
    CollectedLookup(es, Nil, key);
  }

  // ----- responses

  function ForeignParams(ws: List<Wire>): string {
    match ws
    case Nil => ""
    case Cons(w, rest) => Wrap("param", Markup(w)) + ForeignParams(rest)
  }

  ghost function ForeignParamTrees(ws: List<Wire>): List<Node> {
    match ws
    case Nil => Nil
    case Cons(w, rest) => Cons(Only("param", WireTree(w)), ForeignParamTrees(rest))
  }

  lemma ForeignParamParses(w: Wire, y: string, nodes: List<Node>, end: string)
    requires Sent(w) && ParseContent(y) == Good(nodes, end)
    ensures ParseContent(Wrap("param", Markup(w)) + y) == Good(Cons(Only("param", WireTree(w)), nodes), end)
  {
    Tags();
    WireParses(w, Close("param") + y);
    OnlyParses("param", Markup(w), WireTree(w), y);
    WrapOpens("param", Markup(w));
    ElementFirst(Wrap("param", Markup(w)), Only("param", WireTree(w)), y, nodes, end);
  }

  lemma {:induction false} ForeignParamsParse(ws: List<Wire>, end: string)
    requires AllSent(ws) && ParseContent(end) == Good(Nil, end)
    ensures ParseContent(ForeignParams(ws) + end) == Good(ForeignParamTrees(ws), end)
    decreases ws
  {
    if ws.Nil? {
      EmptyFirst(end);
    } else {
      ForeignParamsParse(ws.tail, end);
      ForeignParamParses(ws.head, ForeignParams(ws.tail) + end, ForeignParamTrees(ws.tail), end);
      Assoc(Wrap("param", Markup(ws.head)), ForeignParams(ws.tail), end);
    }
  }

  lemma ForeignParamsElement(ws: List<Wire>, x: string)
    requires AllSent(ws)
    ensures Opens(Wrap("params", ForeignParams(ws)))
    ensures ParseElement(Wrap("params", ForeignParams(ws)) + x) == Good(Element("params", ForeignParamTrees(ws)), x)
  {
    Tags();
    CloseStarts("params", x);
    ForeignParamsParse(ws, Close("params") + x);
    WrapOpens("params", ForeignParams(ws));
    WrapParses("params", ForeignParams(ws), ForeignParamTrees(ws), x);
  }

  lemma {:induction false} ForeignParamsRead(ws: List<Wire>)
    requires AllSent(ws)
    ensures PlainNodes(ForeignParamTrees(ws)) && Data(ForeignParamTrees(ws)) == Meanings(ws)
  {
    if ws.Cons? {
      WirePlain(ws.head);
      WireReads(ws.head);
      ForeignParamsRead(ws.tail);
    }
  }

  /** The data of a response are what its parameters mean, in their order. */
  lemma ForeignResponse(ws: List<Wire>)
    requires AllSent(ws)
    ensures ParseResponse(PROLOG + Wrap("methodResponse", Wrap("params", ForeignParams(ws))))
         == Response(true, 0, "", Meanings(ws))
  {
    Tags();
    var params, end := Element("params", ForeignParamTrees(ws)), Close("methodResponse") + "";
    ForeignParamsElement(ws, end);
    ForeignParamsRead(ws);
    ResponseParses("methodResponse", Wrap("params", ForeignParams(ws)), params);
    LowerClean("params");
    assert FirstTag(Only("methodResponse", params)) == "params";
  }

  lemma ForeignFaultParses(w: Wire)
    requires Sent(w)
    ensures ReadMessage(PROLOG + Wrap("methodResponse", Wrap("fault", Markup(w))))
         == Some(Only("methodResponse", Only("fault", WireTree(w))))
  {
    Tags();
    var end := Close("methodResponse") + "";
    WireParses(w, Close("fault") + end);
    OnlyParses("fault", Markup(w), WireTree(w), end);
    WrapOpens("fault", Markup(w));
    WirePlain(w);
    ResponseParses("methodResponse", Wrap("fault", Markup(w)), Only("fault", WireTree(w)));
  }

  /** A fault is reported with its code and text, in whatever form they come. */
  lemma ForeignFault(tag: string, es: List<Entry>)
    requires Sent(Members(tag, es))
    ensures ParseResponse(PROLOG + Wrap("methodResponse", Wrap("fault", Markup(Members(tag, es)))))
         == Response(false, AsInt(LastOf(es, "faultCode", Other)), AsString(LastOf(es, "faultString", Other)), Nil)
  {
    var w := Members(tag, es);
    ForeignFaultParses(w);
    WireReads(w);
    LowerClean("fault");
    CollectedLookup(es, Nil, "faultCode");
    CollectedLookup(es, Nil, "faultString");
    FaultReported(WireTree(w));
  }

  lemma FaultReported(n: Node)
    requires Lower("fault") == "fault"
    ensures FirstTag(Only("methodResponse", Only("fault", n))) == "fault"
    ensures FirstValue(Only("fault", n)) == Demarshal(n)
  {
  }

  // ----- what is missing or malformed

  /** A member without a value, and a parameter without one, are the empty text;
      so is an empty value. */
  lemma MissingValue(key: string)
    ensures MemberValue(Element("member", Cons(Leaf("name", key), Nil))) == Str("")
    ensures Data(Cons(Element("param", Nil), Nil)) == Cons(Str(""), Nil)
    ensures Demarshal(Element("value", Nil)) == Str("")
  {
    assert FirstNamed(TextNodes(key), "value") == None;
    assert Data(Nil) == Nil;
  }

  /** Text that is no number is read as 0. */
  lemma NoNumber(t: string)
    requires exists i | 0 <= i < |t| :: i > 0 && !('0' <= t[i] <= '9')
    ensures ToInt(t) == 0
  {
    var i :| 0 <= i < |t| && i > 0 && !('0' <= t[i] <= '9');
    assert t[1..][i - 1] == t[i];
  }

  /** Codes and texts of faults are converted if they come as another type. */
  lemma Converted(i: int, b: bool)
    requires Int32(i)
    ensures AsInt(Str(IntText(i))) == i && AsString(Int(i)) == IntText(i)
    ensures AsInt(Bool(b)) == (if b then 1 else 0) && AsString(Bool(b)) == if b then "true" else "false"
  {
    IntRoundTrip(i);
  }

  /** For any bytes at all: success is reported exactly for a document that has
      `params`, in any case, as its first element; a failure has no data. */
  lemma SuccessIff(s: string)
    ensures ParseResponse(s).success
       <==> && ReadMessage(s).Some?
            && var kids := Children(ReadMessage(s).value);
               kids.Cons? && kids.head.Element? && Lower(kids.head.tag) == "params"
    ensures !ParseResponse(s).success ==> ParseResponse(s).data == Nil
  {
    LowerClean("params");
    assert "params" != "";
  }
}
