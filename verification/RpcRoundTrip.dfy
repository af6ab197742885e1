/** `demarshal` undoes `marshal`: the markup parses to the tree of the value
    whatever follows it, and the tree reads back as the value exactly when QDom
    drops none of its text. */
module RpcRoundTrip {
  import opened Sequences
  import opened Text
  import opened XmlRpc

  // ----- the parser on marshalled markup

  ghost predicate Name(tag: string) {
    tag != "" && forall i | 0 <= i < |tag| :: NameChar(tag[i])
  }

  lemma {:induction false} NameEnds(tag: string, s: string)
    requires forall i | 0 <= i < |tag| :: NameChar(tag[i])
    requires s == "" || !NameChar(s[0])
    ensures NameLength(tag + s) == |tag|
  {
    if tag == "" {
      assert tag + s == s;
    } else {
      NameEnds(tag[1..], s);
      assert (tag + s)[1..] == tag[1..] + s;
    }
  }

  lemma {:induction false} TextEnds(t: string, s: string)
    requires '<' !in t && s != "" && s[0] == '<'
    ensures TextLength(t + s) == |t|
  {
    if t == "" {
      assert t + s == s;
    } else {
      assert t[0] in t && forall c <- t[1..] :: c in t;
      TextEnds(t[1..], s);
      assert (t + s)[1..] == t[1..] + s;
    }
  }

  function Close(tag: string): string {
    "</" + tag + ">"
  }

  lemma WrapText(tag: string, inner: string, x: string)
    ensures Wrap(tag, inner) + x == "<" + (tag + (">" + (inner + (Close(tag) + x))))
  {
  }

  lemma OpeningTag(tag: string, after: string)
    requires Name(tag) && after != "" && !NameChar(after[0])
    ensures var s := "<" + (tag + after);
            && s[0] == '<' && NameLength(s[1..]) == |tag|
            && s[1..][..|tag|] == tag && s[1..][|tag|..] == after
  {
    var s := "<" + (tag + after);
    assert s[1..] == tag + after;
    NameEnds(tag, after);
  }

  lemma BodyOf(body: string)
    ensures !StartsWith(">" + body, "/>") && StartsWith(">" + body, ">") && (">" + body)[1..] == body
  {
    StartChars(">" + body);
  }

  lemma WrapParses(tag: string, inner: string, kids: List<Node>, x: string)
    requires Name(tag) && ParseContent(inner + (Close(tag) + x)) == Good(kids, Close(tag) + x)
    ensures ParseElement(Wrap(tag, inner) + x) == Good(Element(tag, kids), x)
  {
    var body := inner + (Close(tag) + x);
    WrapText(tag, inner, x);
    OpeningTag(tag, ">" + body);
    BodyOf(body);
    CloseStarts(tag, x);
  }

  /** What it takes to start with "</" or "/>". */
  lemma StartChars(s: string)
    ensures StartsWith(s, "</") ==> |s| > 1 && s[0] == '<' && s[1] == '/'
    ensures StartsWith(s, "/>") ==> |s| > 1 && s[0] == '/' && s[1] == '>'
  {
    if |s| > 1 {
      assert s[..2][0] == s[0] && s[..2][1] == s[1];
    }
  }

  lemma CloseStarts(tag: string, x: string)
    ensures StartsWith(Close(tag) + x, "</" + tag + ">") && (Close(tag) + x)[|tag| + 3..] == x
    ensures StartsWith(Close(tag) + x, "</") && (Close(tag) + x)[0] == '<'
    ensures ParseContent(Close(tag) + x) == Good(Nil, Close(tag) + x)
  {
    var s := Close(tag) + x;
    assert s[0] == '<' && s[1] == '/';
    assert s[..2] == "</";
  }

  /** `e` begins with an opening tag. */
  ghost predicate Opens(e: string) {
    |e| > 1 && e[0] == '<' && e[1] != '/'
  }

  lemma ElementFirst(e: string, n: Node, y: string, nodes: List<Node>, end: string)
    requires Opens(e) && ParseElement(e + y) == Good(n, y) && ParseContent(y) == Good(nodes, end)
    ensures ParseContent(e + y) == Good(Cons(n, nodes), end)
  {
    assert (e + y)[0] == '<' && (e + y)[1] == e[1];
    StartChars(e + y);
  }

  lemma TextFirst(t: string, y: string, end: string)
    requires CleanText(t) && y != "" && y[0] == '<' && ParseContent(y) == Good(Nil, end)
    ensures ParseContent(t + y) == Good(TextNodes(t), end)
  {
    if t == "" {
      assert t + y == y;
    } else {
      TextEnds(t, y);
      assert (t + y)[..|t|] == t && (t + y)[|t|..] == y;
      assert t[0] in t && (t + y)[0] == t[0];
      StartChars(t + y);
    }
  }

  lemma WrapOpens(tag: string, inner: string)
    requires Name(tag)
    ensures Opens(Wrap(tag, inner))
  {
    assert Wrap(tag, inner)[1] == tag[0];
  }

  lemma LeafParses(tag: string, t: string, x: string)
    requires Name(tag) && CleanText(t)
    ensures ParseElement(Wrap(tag, t) + x) == Good(Leaf(tag, t), x)
  {
    CloseStarts(tag, x);
    TextFirst(t, Close(tag) + x, Close(tag) + x);
    WrapParses(tag, t, TextNodes(t), x);
  }

  /** An element around one element. */
  lemma OnlyParses(tag: string, e: string, n: Node, x: string)
    requires Name(tag) && Opens(e) && ParseElement(e + (Close(tag) + x)) == Good(n, Close(tag) + x)
    ensures ParseElement(Wrap(tag, e) + x) == Good(Only(tag, n), x)
  {
    CloseStarts(tag, x);
    ElementFirst(e, n, Close(tag) + x, Nil, Close(tag) + x);
    WrapParses(tag, e, Cons(n, Nil), x);
  }

  lemma MarshalOpens(v: Value)
    ensures Opens(Marshal(v))
  {
    if !v.Other? {
      WrapOpens("value", Payload(v));
    }
  }

  lemma EmptyElementParses(tag: string, x: string)
    requires Name(tag)
    ensures ParseElement("<" + tag + "/>" + x) == Good(Element(tag, Nil), x)
  {
    assert "<" + tag + "/>" + x == "<" + (tag + ("/>" + x));
    OpeningTag(tag, "/>" + x);
    assert ("/>" + x)[..2] == "/>" && ("/>" + x)[2..] == x;
  }

  /** The markup of a value parses to its tree, whatever comes behind it. */
  lemma {:induction false} MarshalParses(v: Value, x: string)
    requires Sendable(v)
    ensures ParseElement(Marshal(v) + x) == Good(Tree(v), x)
    decreases v, 2
  {
    if v.Other? {
      assert "<value/>" == "<" + "value" + "/>";
      EmptyElementParses("value", x);
    } else {
      PayloadParses(v, Close("value") + x);
      ValueParses(Payload(v), TypeTree(v), x);
    }
  }

  lemma ValueParses(payload: string, n: Node, x: string)
    requires Opens(payload) && ParseElement(payload + (Close("value") + x)) == Good(n, Close("value") + x)
    ensures ParseElement(Wrap("value", payload) + x) == Good(Only("value", n), x)
  {
    OnlyParses("value", payload, n, x);
  }

  lemma {:induction false} PayloadParses(v: Value, x: string)
    requires Sendable(v) && !v.Other?
    ensures Opens(Payload(v)) && ParseElement(Payload(v) + x) == Good(TypeTree(v), x)
    decreases v, 1
  {
    match v
    case Str(s) =>
      WrapOpens("string", s);
      LeafParses("string", s, x);
    case Int(i) =>
      IntIsClean(i);
      WrapOpens("int", IntText(i));
      LeafParses("int", IntText(i), x);
    case Bool(b) =>
      WrapOpens("boolean", if b then "true" else "false");
      LeafParses("boolean", if b then "true" else "false", x);
    case Array(items) =>
      var y := Close("array") + x;
      WrapOpens("data", MarshalAll(items));
      WrapOpens("array", Wrap("data", MarshalAll(items)));
      CloseStarts("data", y);
      AllParse(items, Close("data") + y);
      WrapParses("data", MarshalAll(items), Trees(items), y);
      OnlyParses("array", Wrap("data", MarshalAll(items)), Element("data", Trees(items)), x);
    case Struct(members) =>
      WrapOpens("struct", MarshalMembers(members));
      CloseStarts("struct", x);
      MembersParse(members, Close("struct") + x);
      WrapParses("struct", MarshalMembers(members), MemberTrees(members), x);
  }

  lemma IntIsClean(i: int)
    ensures CleanText(IntText(i)) && !Blank(IntText(i)) && IntText(i) != ""
  {
    var t := IntText(i);
    assert !IsSpace(t[0]);
  }

  lemma {:induction false} AllParse(vs: List<Value>, y: string)
    requires AllSendable(vs) && ParseContent(y) == Good(Nil, y)
    ensures ParseContent(MarshalAll(vs) + y) == Good(Trees(vs), y)
    decreases vs, 0
  {
    if vs.Nil? {
      assert MarshalAll(vs) + y == y;
    } else {
      var rest := MarshalAll(vs.tail) + y;
      AllParse(vs.tail, y);
      MarshalParses(vs.head, rest);
      MarshalOpens(vs.head);
      ElementFirst(Marshal(vs.head), Tree(vs.head), rest, Trees(vs.tail), y);
      assert MarshalAll(vs) + y == Marshal(vs.head) + rest;
    }
  }

  lemma {:induction false} MembersParse(ms: List<Member>, y: string)
    requires MembersSendable(ms) && ParseContent(y) == Good(Nil, y)
    ensures ParseContent(MarshalMembers(ms) + y) == Good(MemberTrees(ms), y)
    decreases ms, 0
  {
    if ms.Nil? {
      assert MarshalMembers(ms) + y == y;
    } else {
      var rest := MarshalMembers(ms.tail) + y;
      MembersParse(ms.tail, y);
      MemberParses(ms.head, rest);
      FirstMember(ms, y);
      ElementFirst(MarshalMember(ms.head), MemberTree(ms.head), rest, MemberTrees(ms.tail), y);
    }
  }

  lemma FirstMember(ms: List<Member>, y: string)
    requires ms.Cons?
    ensures MarshalMembers(ms) + y == MarshalMember(ms.head) + (MarshalMembers(ms.tail) + y)
  {
    var e := MarshalMember(ms.head);
    assert e + MarshalMembers(ms.tail) + y == e + (MarshalMembers(ms.tail) + y);
  }

  function MarshalMember(m: Member): string {
    Wrap("member", Wrap("name", m.key) + Marshal(m.value))
  }

  lemma {:induction false} MemberParses(m: Member, x: string)
    requires CleanText(m.key) && Sendable(m.value)
    ensures Opens(MarshalMember(m)) && ParseElement(MarshalMember(m) + x) == Good(MemberTree(m), x)
    decreases m, 3
  {
    MarshalParses(m.value, Close("member") + x);
    MarshalOpens(m.value);
    MemberPairParses(m.key, Marshal(m.value), Tree(m.value), x);
  }

  lemma MemberPairParses(key: string, e: string, n: Node, x: string)
    requires CleanText(key) && Opens(e)
    requires ParseElement(e + (Close("member") + x)) == Good(n, Close("member") + x)
    ensures var pair := Wrap("member", Wrap("name", key) + e);
            Opens(pair) && ParseElement(pair + x) == Good(Element("member", Cons(Leaf("name", key), Cons(n, Nil))), x)
  {
    assert Name("member") && Name("name");
    PairParses("member", "name", key, e, n, x);
  }

  lemma PairParses(outer: string, inner: string, key: string, e: string, n: Node, x: string)
    requires Name(outer) && Name(inner) && CleanText(key) && Opens(e)
    requires ParseElement(e + (Close(outer) + x)) == Good(n, Close(outer) + x)
    ensures var pair := Wrap(outer, Wrap(inner, key) + e);
            Opens(pair) && ParseElement(pair + x) == Good(Element(outer, Cons(Leaf(inner, key), Cons(n, Nil))), x)
  {
    WrapOpens(inner, key);
    LeafParses(inner, key, e + (Close(outer) + x));
    TwoParse(outer, Wrap(inner, key), Leaf(inner, key), e, n, x);
  }

  /** An element around two elements. */
  lemma TwoParse(tag: string, e1: string, n1: Node, e2: string, n2: Node, x: string)
    requires Name(tag) && Opens(e1) && Opens(e2)
    requires ParseElement(e1 + (e2 + (Close(tag) + x))) == Good(n1, e2 + (Close(tag) + x))
    requires ParseElement(e2 + (Close(tag) + x)) == Good(n2, Close(tag) + x)
    ensures Opens(Wrap(tag, e1 + e2))
    ensures ParseElement(Wrap(tag, e1 + e2) + x) == Good(Element(tag, Cons(n1, Cons(n2, Nil))), x)
  {
    var c := Close(tag) + x;
    CloseStarts(tag, x);
    ElementFirst(e2, n2, c, Nil, c);
    ElementFirst(e1, n1, e2 + c, Cons(n2, Nil), c);
    assert e1 + (e2 + c) == (e1 + e2) + c;
    WrapParses(tag, e1 + e2, Cons(n1, Cons(n2, Nil)), x);
    WrapOpens(tag, e1 + e2);
  }

  // ----- demarshalling the tree

  lemma TextOfNodes(s: string)
    ensures TextOf(TextNodes(s)) == s
  {
    if s != "" {
      assert TextOf(Cons(Text(s), Nil)) == s + TextOf(Nil);
    }
  }

  predicate IsLower(s: string) {
    s == "" || (!('A' <= s[0] <= 'Z') && IsLower(s[1..]))
  }

  lemma {:induction false} LowerClean(s: string)
    requires IsLower(s)
    ensures Lower(s) == s
  {
    if s != "" {
      LowerClean(s[1..]);
    }
  }

  /** The first descendants named "name" and "value" are the member's own, even
      when its value is a struct again. */
  lemma MemberParts(m: Member)
    ensures MemberKey(MemberTree(m)) == m.key
    ensures MemberValue(MemberTree(m)) == Demarshal(Tree(m.value))
  {
    var kids := MemberTree(m).children;
    TextOfNodes(m.key);
    assert FirstNamed(kids, "name") == Some(Leaf("name", m.key));
    assert FirstNamed(TextNodes(m.key), "value") == None;
    assert FirstNamed(kids, "value") == FirstNamed(kids.tail, "value") == Some(Tree(m.value));
  }

  ghost function Append(a: List<Member>, b: List<Member>): List<Member> {
    match a
    case Nil => b
    case Cons(m, rest) => Cons(m, Append(rest, b))
  }

  ghost predicate AllBelow(ms: List<Member>, key: string) {
    ms.Nil? || (StringLess(ms.head.key, key) && AllBelow(ms.tail, key))
  }

  lemma {:induction false} StringLessIsStrict(a: string, b: string)
    requires StringLess(a, b)
    ensures a != b && !StringLess(b, a)
  {
    if a != "" && a[0] == b[0] {
      StringLessIsStrict(a[1..], b[1..]);
    }
  }

  lemma {:induction false} InsertLast(ms: List<Member>, key: string, value: Value)
    requires AllBelow(ms, key)
    ensures Insert(ms, key, value) == Append(ms, Cons(Member(key, value), Nil))
  {
    if ms.Cons? {
      StringLessIsStrict(ms.head.key, key);
      InsertLast(ms.tail, key, value);
    }
  }

  lemma {:induction false} AppendAssoc(a: List<Member>, b: List<Member>, c: List<Member>)
    ensures Append(Append(a, b), c) == Append(a, Append(b, c))
  {
    if a.Cons? {
      AppendAssoc(a.tail, b, c);
    }
  }

  lemma {:induction false} BelowAppend(a: List<Member>, m: Member, key: string)
    requires AllBelow(a, key) && StringLess(m.key, key)
    ensures AllBelow(Append(a, Cons(m, Nil)), key)
  {
    if a.Cons? {
      BelowAppend(a.tail, m, key);
    }
  }

  /** Every key of `a` is below every key of `b`. */
  ghost predicate Separated(a: List<Member>, b: List<Member>) {
    b.Nil? || (AllBelow(a, b.head.key) && Separated(a, b.tail))
  }

  lemma {:induction false} SeparatedAppend(a: List<Member>, m: Member, b: List<Member>)
    requires Separated(a, b) && KeyBelow(m.key, b)
    ensures Separated(Append(a, Cons(m, Nil)), b)
  {
    if b.Cons? {
      BelowAppend(a, m, b.head.key);
      SeparatedAppend(a, m, b.tail);
    }
  }

  lemma {:induction false} TreeReadsBack(v: Value)
    requires Sendable(v) && Supported(v)
    ensures Demarshal(Tree(v)) == v
    decreases v, 1
  {
    match v
    case Str(s) =>
      LowerClean("string");
      LeafReads("string", s);
    case Int(i) =>
      LowerClean("int");
      LeafReads("int", IntText(i));
      IntRoundTrip(i);
    case Bool(b) => BoolReadsBack(b);
    case Array(items) =>
      LowerClean("array");
      TreesReadBack(items);
      ArrayReads(Trees(items));
    case Struct(members) =>
      LowerClean("struct");
      NothingBelow(members);
      MembersReadBack(members, Nil);
      StructReads(MemberTrees(members));
  }

  lemma ArrayReads(ns: List<Node>)
    requires Lower("array") == "array"
    ensures Demarshal(Only("value", Only("array", Element("data", ns)))) == Array(DemarshalAll(ns))
  {
  }

  lemma StructReads(ns: List<Node>)
    requires Lower("struct") == "struct"
    ensures Demarshal(Only("value", Element("struct", ns))) == Struct(DemarshalMembers(ns, Nil))
  {
  }

  lemma BoolReadsBack(b: bool)
    ensures Demarshal(Tree(Bool(b))) == Bool(b)
  {
    var text := if b then "true" else "false";
    TextOfNodes(text);
    LowerClean("boolean");
    TruthText(b);
    LeafReads("boolean", text);
  }

  lemma TruthText(b: bool)
    ensures var text := if b then "true" else "false"; (Lower(text) == "true" || text == "1") == b
  {
    LowerClean("true");
    LowerClean("false");
  }

  /** How the tree of a simple value reads back. */
  lemma LeafReads(tag: string, text: string)
    requires tag in {"string", "int", "boolean"} && Lower(tag) == tag
    ensures Demarshal(Only("value", Leaf(tag, text))) ==
            if tag == "string" then Str(text)
            else if tag == "int" then Int(ToInt(text))
            else Bool(Lower(text) == "true" || text == "1")
  {
    TextOfNodes(text);
  }

  lemma {:induction false} NothingBelow(ms: List<Member>)
    ensures Separated(Nil, ms)
  {
    if ms.Cons? {
      NothingBelow(ms.tail);
    }
  }

  lemma {:induction false} TreesReadBack(vs: List<Value>)
    requires AllSendable(vs) && AllSupported(vs)
    ensures DemarshalAll(Trees(vs)) == vs
    decreases vs, 0
  {
    if vs.Cons? {
      TreeReadsBack(vs.head);
      TreesReadBack(vs.tail);
    }
  }

  lemma {:induction false} MembersReadBack(ms: List<Member>, acc: List<Member>)
    requires MembersSendable(ms) && MembersSupported(ms) && Separated(acc, ms)
    ensures DemarshalMembers(MemberTrees(ms), acc) == Append(acc, ms)
    decreases ms, 0
  {
    if ms.Nil? {
      AppendNil(acc);
    } else {
      var m := ms.head;
      TreeReadsBack(m.value);
      MemberParts(m);
      InsertLast(acc, m.key, m.value);
      SeparatedAppend(acc, m, ms.tail);
      MembersReadBack(ms.tail, Append(acc, Cons(m, Nil)));
      AppendAssoc(acc, Cons(m, Nil), ms.tail);
    }
  }

  lemma {:induction false} AppendNil(a: List<Member>)
    ensures Append(a, Nil) == a
  {
    if a.Cons? {
      AppendNil(a.tail);
    }
  }

  // ----- text that is read

  /** Text as it is left in a document: not empty, not blank, without markup. */
  predicate PlainText(d: string) {
    d != "" && !Blank(d) && CleanText(d)
  }

  ghost predicate PlainNodes(ns: List<Node>) {
    match ns
    case Nil => true
    case Cons(Text(d), rest) => PlainText(d) && PlainNodes(rest)
    case Cons(Element(_, kids), rest) => PlainNodes(kids) && PlainNodes(rest)
  }

  /** Text as the parser makes it. */
  ghost predicate ParsedNodes(ns: List<Node>) {
    match ns
    case Nil => true
    case Cons(Text(d), rest) => d != "" && CleanText(d) && ParsedNodes(rest)
    case Cons(Element(_, kids), rest) => ParsedNodes(kids) && ParsedNodes(rest)
  }

  lemma {:induction false} TextIsClean(s: string)
    ensures '<' !in s[..TextLength(s)]
  {
    if s != "" && s[0] != '<' {
      TextIsClean(s[1..]);
      var n := TextLength(s[1..]);
      assert s[..n + 1] == [s[0]] + s[1..][..n];
    }
  }

  lemma {:induction false} ElementParsed(s: string)
    ensures var p := ParseElement(s); p.Good? ==> p.value.Element? && ParsedNodes(p.value.children)
    decreases |s|, 0
  {
    if ParseElement(s).Good? {
      var after := s[1..][NameLength(s[1..])..];
      if !StartsWith(after, "/>") {
        ContentParsed(after[1..]);
      }
    }
  }

  lemma {:induction false} ContentParsed(s: string)
    ensures var p := ParseContent(s); p.Good? ==> ParsedNodes(p.value)
    decreases |s|, 1
  {
    if ParseContent(s).Good? && !StartsWith(s, "</") {
      if s[0] == '<' {
        ElementParsed(s);
        ContentParsed(ParseElement(s).rest);
      } else {
        TextIsClean(s);
        ContentParsed(s[TextLength(s)..]);
      }
    }
  }

  lemma {:induction false} DropBlankWorks(ns: List<Node>)
    requires ParsedNodes(ns)
    ensures PlainNodes(DropBlank(ns))
  {
    match ns
    case Nil =>
    case Cons(Text(_), rest) => DropBlankWorks(rest);
    case Cons(Element(_, kids), rest) =>
      DropBlankWorks(kids);
      DropBlankWorks(rest);
  }

  lemma {:induction false} NothingToDrop(ns: List<Node>)
    requires PlainNodes(ns)
    ensures DropBlank(ns) == ns
  {
    match ns
    case Nil =>
    case Cons(Text(_), rest) => NothingToDrop(rest);
    case Cons(Element(_, kids), rest) =>
      NothingToDrop(kids);
      NothingToDrop(rest);
  }

  lemma {:induction false} TextIsPlain(ns: List<Node>)
    requires PlainNodes(ns)
    ensures !Blank(TextOf(ns)) && CleanText(TextOf(ns))
  {
    match ns
    case Nil =>
    case Cons(Text(d), rest) =>
      TextIsPlain(rest);
      JoinedNotBlank(d, TextOf(rest));
    case Cons(Element(_, kids), rest) =>
      TextIsPlain(kids);
      TextIsPlain(rest);
      JoinedNotBlank(TextOf(kids), TextOf(rest));
  }

  lemma JoinedNotBlank(a: string, b: string)
    requires !Blank(a) && !Blank(b)
    ensures !Blank(a + b)
  {
    if a == "" {
      assert a + b == b;
    } else {
      var i :| 0 <= i < |a| && !IsSpace(a[i]);
      assert (a + b)[i] == a[i];
    }
  }

  ghost predicate PlainNode(n: Node) {
    match n
    case Text(d) => PlainText(d)
    case Element(_, kids) => PlainNodes(kids)
  }

  lemma {:induction false} FirstNamedPlain(ns: List<Node>, tag: string)
    requires PlainNodes(ns)
    ensures FirstNamed(ns, tag).Some? ==> PlainNode(FirstNamed(ns, tag).value)
  {
    match ns
    case Nil =>
    case Cons(Text(_), rest) => FirstNamedPlain(rest, tag);
    case Cons(Element(_, kids), rest) =>
      FirstNamedPlain(kids, tag);
      FirstNamedPlain(rest, tag);
  }

  /** From a tree with plain text no blank string and no markup is ever read. */
  lemma {:induction false} DemarshalPlain(n: Node)
    requires PlainNode(n)
    ensures NoBlank(Demarshal(n)) && Clean(Demarshal(n))
    decreases Size(n), 0
  {
    var kids := Children(n);
    TextIsPlain(kids);
    if kids.Cons? && kids.head.Element? {
      var t := kids.head;
      assert Size(t) <= SizeAll(kids);
      TextIsPlain(t.children);
      if Lower(t.tag) == "array" {
        if t.children.Cons? {
          DemarshalAllPlain(ChildrenOfFirst(t.children));
        }
      } else if Lower(t.tag) == "struct" {
        DemarshalMembersPlain(t.children, Nil);
      }
    }
  }

  lemma {:induction false} DemarshalAllPlain(ns: List<Node>)
    requires PlainNodes(ns)
    ensures AllNoBlank(DemarshalAll(ns)) && AllClean(DemarshalAll(ns))
    decreases SizeAll(ns), 1
  {
    if ns.Cons? {
      DemarshalPlain(ns.head);
      DemarshalAllPlain(ns.tail);
    }
  }

  lemma {:induction false} DemarshalMembersPlain(ns: List<Node>, acc: List<Member>)
    requires PlainNodes(ns) && MembersNoBlank(acc) && MembersClean(acc)
    ensures MembersNoBlank(DemarshalMembers(ns, acc)) && MembersClean(DemarshalMembers(ns, acc))
    decreases SizeAll(ns), 1
  {
    if ns.Cons? {
      var n := ns.head;
      MemberPlain(n);
      InsertPlain(acc, MemberKey(n), MemberValue(n));
      DemarshalMembersPlain(ns.tail, Insert(acc, MemberKey(n), MemberValue(n)));
    }
  }

  lemma {:induction false} MemberPlain(n: Node)
    requires PlainNode(n)
    ensures !Blank(MemberKey(n)) && NoBlank(MemberValue(n))
    ensures CleanText(MemberKey(n)) && Clean(MemberValue(n))
    decreases Size(n), 0
  {
    var kids := Children(n);
    FirstNamedPlain(kids, "name");
    FirstNamedPlain(kids, "value");
    var name, value := FirstNamed(kids, "name"), FirstNamed(kids, "value");
    if name.Some? {
      TextIsPlain(Children(name.value));
    }
    if value.Some? {
      DemarshalPlain(value.value);
    }
  }

  lemma {:induction false} InsertPlain(ms: List<Member>, key: string, value: Value)
    requires MembersNoBlank(ms) && !Blank(key) && NoBlank(value)
    requires MembersClean(ms) && CleanText(key) && Clean(value)
    ensures MembersNoBlank(Insert(ms, key, value)) && MembersClean(Insert(ms, key, value))
  {
    if ms.Cons? {
      InsertPlain(ms.tail, key, value);
    }
  }

  lemma {:induction false} TreeText(v: Value)
    requires Sendable(v) && NoBlank(v)
    ensures PlainNodes(Cons(Tree(v), Nil))
    decreases v, 1
  {
    if !v.Other? {
      TypeTreeText(v);
    }
  }

  lemma LeafText(tag: string, t: string)
    requires !Blank(t) && CleanText(t)
    ensures PlainNodes(Cons(Leaf(tag, t), Nil))
  {
    assert t != "" ==> TextNodes(t) == Cons(Text(t), Nil);
  }

  lemma {:induction false} TypeTreeText(v: Value)
    requires !v.Other? && Sendable(v) && NoBlank(v)
    ensures PlainNodes(Cons(TypeTree(v), Nil))
    decreases v, 0
  {
    match v
    case Str(s) => LeafText("string", s);
    case Int(i) =>
      IntIsClean(i);
      LeafText("int", IntText(i));
    case Bool(b) =>
      assert !IsSpace((if b then "true" else "false")[0]);
      LeafText("boolean", if b then "true" else "false");
    case Array(items) =>
      TreesText(items);
      var data := Element("data", Trees(items));
      assert PlainNodes(Cons(data, Nil));
    case Struct(members) => MembersText(members);
  }

  lemma {:induction false} TreesText(vs: List<Value>)
    requires AllSendable(vs) && AllNoBlank(vs)
    ensures PlainNodes(Trees(vs))
    decreases vs, 0
  {
    if vs.Cons? {
      TreeText(vs.head);
      TreesText(vs.tail);
    }
  }

  lemma {:induction false} MembersText(ms: List<Member>)
    requires MembersSendable(ms) && MembersNoBlank(ms)
    ensures PlainNodes(MemberTrees(ms))
    decreases ms, 0
  {
    if ms.Cons? {
      var m := ms.head;
      TreeText(m.value);
      LeafText("name", m.key);
      MembersText(ms.tail);
      assert MemberTree(m).children == Cons(Leaf("name", m.key), Cons(Tree(m.value), Nil));
    }
  }

  // ----- unsupported types

  /** What `marshal` writes never reads back as an unsupported type. */
  lemma {:induction false} ReadsSupported(v: Value)
    requires !v.Other?
    ensures Supported(Demarshal(Element("value", DropBlank(Cons(TypeTree(v), Nil)))))
    decreases v, 1
  {
    match v
    case Str(s) => SimpleReadsSupported("string", s);
    case Int(i) => SimpleReadsSupported("int", IntText(i));
    case Bool(b) => SimpleReadsSupported("boolean", if b then "true" else "false");
    case Array(items) =>
      LowerClean("array");
      AllReadSupported(items);
      ArrayReads(DropBlank(Trees(items)));
    case Struct(members) =>
      LowerClean("struct");
      MembersReadSupported(members, Nil);
      StructReads(DropBlank(MemberTrees(members)));
  }

  lemma SimpleReadsSupported(tag: string, text: string)
    requires tag in {"string", "int", "boolean"}
    ensures Supported(Demarshal(Element("value", DropBlank(Cons(Leaf(tag, text), Nil)))))
  {
    LowerClean("string");
    LowerClean("int");
    LowerClean("boolean");
    SimpleTagSupported(tag, DropBlank(TextNodes(text)));
    assert DropBlank(Cons(Leaf(tag, text), Nil)) == Cons(Element(tag, DropBlank(TextNodes(text))), Nil);
  }

  lemma SimpleTagSupported(tag: string, kids: List<Node>)
    requires tag in {"string", "int", "boolean"} && Lower(tag) == tag
    ensures Supported(Demarshal(Element("value", Cons(Element(tag, kids), Nil))))
  {
  }

  lemma {:induction false} TreeReadsSupported(v: Value)
    ensures DropBlank(Cons(Tree(v), Nil)) == Cons(DropBlank(Cons(Tree(v), Nil)).head, Nil)
    ensures Supported(Demarshal(DropBlank(Cons(Tree(v), Nil)).head))
    decreases v, 2
  {
    if !v.Other? {
      ReadsSupported(v);
    }
  }

  lemma {:induction false} AllReadSupported(vs: List<Value>)
    ensures AllSupported(DemarshalAll(DropBlank(Trees(vs))))
    decreases vs, 0
  {
    if vs.Cons? {
      TreeReadsSupported(vs.head);
      AllReadSupported(vs.tail);
      assert DropBlank(Trees(vs)) == Cons(DropBlank(Cons(Tree(vs.head), Nil)).head, DropBlank(Trees(vs.tail)));
    }
  }

  lemma {:induction false} MembersReadSupported(ms: List<Member>, acc: List<Member>)
    requires MembersSupported(acc)
    ensures MembersSupported(DemarshalMembers(DropBlank(MemberTrees(ms)), acc))
    decreases ms, 0
  {
    if ms.Cons? {
      var m := ms.head;
      var kids := DropBlank(MemberTree(m).children);
      var n := Element("member", kids);
      TreeReadsSupported(m.value);
      var value := DropBlank(Cons(Tree(m.value), Nil)).head;
      assert kids == Cons(Element("name", DropBlank(TextNodes(m.key))), Cons(value, Nil));
      assert FirstNamed(DropBlank(TextNodes(m.key)), "value") == None;
      assert FirstNamed(kids, "value") == Some(value);
      assert DropBlank(MemberTrees(ms)) == Cons(n, DropBlank(MemberTrees(ms.tail)));
      InsertSupported(acc, MemberKey(n), MemberValue(n));
      MembersReadSupported(ms.tail, Insert(acc, MemberKey(n), MemberValue(n)));
    }
  }

  lemma {:induction false} InsertSupported(ms: List<Member>, key: string, value: Value)
    requires MembersSupported(ms) && Supported(value)
    ensures MembersSupported(Insert(ms, key, value))
  {
    if ms.Cons? {
      InsertSupported(ms.tail, key, value);
    }
  }

  // ----- main results

  /** What the receiver of `marshal(v)` gets. */
  ghost function Received(v: Value): Option<Value> {
    match ReadDocument(Marshal(v))
    case None => None
    case Some(n) => Some(Demarshal(n))
  }

  /** Nothing with a blank or a markup character in its texts is ever received. */
  lemma ReceivedIsPlain(v: Value)
    ensures Received(v).Some? ==> NoBlank(Received(v).value) && Clean(Received(v).value)
  {
    if Received(v).Some? {
      ElementParsed(Marshal(v));
      var ns := Cons(ParseElement(Marshal(v)).value, Nil);
      DropBlankWorks(ns);
      DemarshalPlain(DropBlank(ns).head);
    }
  }

  lemma TreeReceived(v: Value)
    requires Sendable(v)
    ensures Received(v) == Some(Demarshal(DropBlank(Cons(Tree(v), Nil)).head))
  {
    MarshalParses(v, "");
    assert Marshal(v) + "" == Marshal(v);
  }

  lemma SendableReceived(v: Value)
    requires Sendable(v)
    ensures Received(v).Some? && Supported(Received(v).value)
    ensures Supported(v) && NoBlank(v) ==> Received(v) == Some(v)
  {
    TreeReceived(v);
    TreeReadsSupported(v);
    if Supported(v) && NoBlank(v) {
      PlainTreeStays(v);
      TreeReadsBack(v);
    }
  }

  lemma PlainTreeStays(v: Value)
    requires Sendable(v) && NoBlank(v)
    ensures DropBlank(Cons(Tree(v), Nil)).head == Tree(v)
  {
    TreeText(v);
    NothingToDrop(Cons(Tree(v), Nil));
  }

  lemma {:induction false} SendableIff(v: Value)
    ensures Sendable(v) <==> Storable(v) && Clean(v)
    decreases v, 1
  {
    match v
    case Array(items) => AllSendableIff(items);
    case Struct(members) => MembersSendableIff(members);
    case _ =>
  }

  lemma {:induction false} AllSendableIff(vs: List<Value>)
    ensures AllSendable(vs) <==> AllStorable(vs) && AllClean(vs)
    decreases vs, 0
  {
    if vs.Cons? {
      SendableIff(vs.head);
      AllSendableIff(vs.tail);
    }
  }

  lemma {:induction false} MembersSendableIff(ms: List<Member>)
    ensures MembersSendable(ms) <==> MembersStorable(ms) && MembersClean(ms)
    decreases ms, 0
  {
    if ms.Cons? {
      SendableIff(ms.head.value);
      MembersSendableIff(ms.tail);
    }
  }

  /** Every value survives marshalling, parsing and demarshalling iff it has no
      part of an unsupported type, no string or key of white space only, and
      none with a character that `marshal` would have to escape. */
  lemma RoundTripIff(v: Value)
    requires Storable(v)
    ensures Received(v) == Some(v) <==> Supported(v) && NoBlank(v) && Clean(v)
  {
    ReceivedIsPlain(v);
    SendableIff(v);
    if Clean(v) {
      SendableReceived(v);
    }
  }

  /** Markup of values can be told apart wherever it ends: `marshal` is
      injective and none of its results is a prefix of another. */
  lemma MarshalUnique(v: Value, w: Value, x: string, y: string)
    requires Sendable(v) && Supported(v) && Sendable(w) && Supported(w)
    requires Marshal(v) + x == Marshal(w) + y
    ensures v == w && x == y
  {
    MarshalParses(v, x);
    MarshalParses(w, y);
    TreeReadsBack(v);
    TreeReadsBack(w);
  }

  /** Concatenated arguments decode uniquely. */
  lemma {:induction false} ArgumentsUnique(vs: List<Value>, ws: List<Value>)
    requires AllSendable(vs) && AllSupported(vs) && AllSendable(ws) && AllSupported(ws)
    requires MarshalAll(vs) == MarshalAll(ws)
    ensures vs == ws
  {
    if vs.Cons? && ws.Cons? {
      MarshalUnique(vs.head, ws.head, MarshalAll(vs.tail), MarshalAll(ws.tail));
      ArgumentsUnique(vs.tail, ws.tail);
    } else if vs.Cons? {
      MarshalOpens(vs.head);
    } else if ws.Cons? {
      MarshalOpens(ws.head);
    }
  }
}
