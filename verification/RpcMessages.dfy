/** Whole XML-RPC messages (dcoprss/xmlrpciface.cpp): the call that is sent, and
    the response or fault that is read. */
module RpcMessages {
  import opened Sequences
  import opened Text
  import opened XmlRpc
  import opened RpcRoundTrip

  const PROLOG := "<?xml version='1.0' ?>"

  datatype Response = Response(success: bool, errorCode: int, errorString: string, data: List<Value>)

  // ----- sending

  function Params(args: List<Value>): string {
    match args
    case Nil => ""
    case Cons(v, rest) => Wrap("param", Marshal(v)) + Params(rest)
  }

  function MarkupCall(cmd: string, args: List<Value>): string {
    PROLOG + Wrap("methodCall",
                  Wrap("methodName", cmd) + if args.Nil? then "" else Wrap("params", Params(args)))
  }

  method BuildParams(args: List<Value>) returns (markup: string)
    ensures markup == Params(args)
  {
    markup := "";
    var it := args;
    assert markup + Params(it) == Params(args);
    while it.Cons?
      invariant markup + Params(it) == Params(args)
      decreases it
    {
      var param := Wrap("param", Marshal(it.head));
      assert (markup + param) + Params(it.tail) == markup + (param + Params(it.tail));
      markup := markup + param;
      it := it.tail;
    }
    assert markup + "" == markup;
  }

  method BuildCall(cmd: string, args: List<Value>) returns (markup: string)
    ensures markup == MarkupCall(cmd, args)
  {
    var body := Wrap("methodName", cmd);
    if args.Cons? {
      var params := BuildParams(args);
      body := body + Wrap("params", params);
    } else {
      assert body + "" == body;
    }
    markup := PROLOG + Wrap("methodCall", body);
  }

  // ----- receiving

  /** The XML declaration is not part of the tree. */
  function ReadMessage(s: string): Option<Node> {
    ReadDocument(if StartsWith(s, PROLOG) then s[|PROLOG|..] else s)
  }

  /** `demarshal` of the first child, which may be missing. */
  function FirstValue(n: Node): Value {
    if Children(n).Nil? then Str("") else Demarshal(Children(n).head)
  }

  function Data(params: List<Node>): List<Value> {
    match params
    case Nil => Nil
    case Cons(p, rest) => Cons(FirstValue(p), Data(rest))
  }

  function Lookup(members: List<Member>, key: string): Value {
    match members
    case Nil => Other
    case Cons(m, rest) => if m.key == key then m.value else Lookup(rest, key)
  }

  function MemberOf(v: Value, key: string): Value {
    if v.Struct? then Lookup(v.members, key) else Other
  }

  /** `QVariant::toInt`. */
  function AsInt(v: Value): int {
    match v
    case Int(i) => i
    case Str(s) => ToInt(s)
    case Bool(b) => if b then 1 else 0
    case _ => 0
  }

  /** `QVariant::toString`. */
  function AsString(v: Value): string {
    match v
    case Str(s) => s
    case Int(i) => IntText(i)
    case Bool(b) => if b then "true" else "false"
    case _ => ""
  }

  function ParseFault(n: Node): Response {
    var v := FirstValue(n);
    Response(false, AsInt(MemberOf(v, "faultCode")), AsString(MemberOf(v, "faultString")), Nil)
  }

  function ParseMessage(n: Node): Response {
    Response(true, 0, "", Data(Children(n)))
  }

  function FirstTag(doc: Node): string {
    if Children(doc).Cons? && Children(doc).head.Element? then Lower(Children(doc).head.tag) else ""
  }

  /** What `slotResult` makes of the bytes received. */
  function ParseResponse(s: string): Response {
    match ReadMessage(s)
    case None => Response(false, -1, "Received invalid XML markup", Nil)
    case Some(doc) =>
      if FirstTag(doc) == "params" then ParseMessage(Children(doc).head)
      else if FirstTag(doc) == "fault" then ParseFault(Children(doc).head)
      else Response(false, 1, "Unknown type of XML markup received", Nil)
  }

  /** How a server that uses the same reader understands a call. */
  function ReadCall(s: string): Option<(string, List<Value>)> {
    match ReadMessage(s)
    case None => None
    case Some(doc) =>
      var args := FirstNamed(Children(doc), "params");
      match FirstNamed(Children(doc), "methodName")
      case None => None
      case Some(name) =>
        Some((TextOf(Children(name)), if args.None? then Nil else Data(Children(args.value))))
  }

  // ----- messages in the form the specification gives them

  function ResponseText(data: List<Value>): string {
    PROLOG + Wrap("methodResponse", Wrap("params", Params(data)))
  }

  function FaultValue(code: int, text: string): Value {
    Two("faultCode", Int(code), "faultString", Str(text))
  }

  function FaultText(code: int, text: string): string {
    PROLOG + Wrap("methodResponse", Wrap("fault", Marshal(FaultValue(code, text))))
  }

  // ----- parsing them

  ghost function ParamTrees(vs: List<Value>): List<Node> {
    match vs
    case Nil => Nil
    case Cons(v, rest) => Cons(Only("param", Tree(v)), ParamTrees(rest))
  }

  lemma Tags()
    ensures Name("param") && Name("params") && Name("methodCall") && Name("methodName")
    ensures Name("methodResponse") && Name("fault")
  {
  }

  lemma {:induction false} ParamsParse(vs: List<Value>, tag: string, x: string)
    requires AllSendable(vs)
    ensures var end := Close(tag) + x; ParseContent(Params(vs) + end) == Good(ParamTrees(vs), end)
  {
    var end := Close(tag) + x;
    CloseStarts(tag, x);
    match vs
    case Nil =>
      assert "" + end == end;
    case Cons(v, rest) =>
      ParamsParse(rest, tag, x);
      ParamParses(v, Params(rest) + end, ParamTrees(rest), end);
      assert Params(vs) + end == Wrap("param", Marshal(v)) + (Params(rest) + end);
  }

  lemma ParamParses(v: Value, y: string, nodes: List<Node>, end: string)
    requires Sendable(v) && ParseContent(y) == Good(nodes, end)
    ensures ParseContent(Wrap("param", Marshal(v)) + y) == Good(Cons(Only("param", Tree(v)), nodes), end)
  {
    Tags();
    MarshalOpens(v);
    MarshalParses(v, Close("param") + y);
    OnlyParses("param", Marshal(v), Tree(v), y);
    WrapOpens("param", Marshal(v));
    ElementFirst(Wrap("param", Marshal(v)), Only("param", Tree(v)), y, nodes, end);
  }

  lemma ParamsElement(vs: List<Value>, x: string)
    requires AllSendable(vs)
    ensures Opens(Wrap("params", Params(vs)))
    ensures ParseElement(Wrap("params", Params(vs)) + x) == Good(Element("params", ParamTrees(vs)), x)
  {
    Tags();
    ParamsParse(vs, "params", x);
    assert Params(vs) + (Close("params") + x) == Params(vs) + Close("params") + x;
    WrapOpens("params", Params(vs));
    WrapParses("params", Params(vs), ParamTrees(vs), x);
  }

  lemma {:induction false} ParamsPlain(vs: List<Value>)
    requires AllSendable(vs) && AllNoBlank(vs)
    ensures PlainNodes(ParamTrees(vs))
  {
    if vs.Cons? {
      TreeText(vs.head);
      ParamsPlain(vs.tail);
    }
  }

  lemma {:induction false} ParamsReadBack(vs: List<Value>)
    requires AllSendable(vs) && AllSupported(vs)
    ensures Data(ParamTrees(vs)) == vs
  {
    if vs.Cons? {
      TreeReadsBack(vs.head);
      ParamsReadBack(vs.tail);
    }
  }

  lemma MessageReads(text: string, doc: Node)
    requires ParseElement(text) == Good(doc, "") && PlainNodes(Cons(doc, Nil))
    ensures ReadMessage(PROLOG + text) == Some(doc)
  {
    var s := PROLOG + text;
    assert s[..|PROLOG|] == PROLOG && s[|PROLOG|..] == text;
    NothingToDrop(Cons(doc, Nil));
  }
  // ----- calls

  ghost function CallTree(cmd: string, args: List<Value>): Node {
    Element("methodCall",
            Cons(Leaf("methodName", cmd), if args.Nil? then Nil else Cons(Element("params", ParamTrees(args)), Nil)))
  }

  function CallBody(cmd: string, args: List<Value>): string {
    Wrap("methodCall", Wrap("methodName", cmd) + if args.Nil? then "" else Wrap("params", Params(args)))
  }

  lemma CallParses(cmd: string, args: List<Value>)
    requires CleanText(cmd) && AllSendable(args)
    ensures ParseElement(CallBody(cmd, args)) == Good(CallTree(cmd, args), "")
  {
    Tags();
    var name, end := Wrap("methodName", cmd), Close("methodCall") + "";
    WrapOpens("methodName", cmd);
    assert CallBody(cmd, args) + "" == CallBody(cmd, args);
    if args.Nil? {
      LeafParses("methodName", cmd, end);
      assert name + "" == name;
      OnlyParses("methodCall", name, Leaf("methodName", cmd), "");
    } else {
      ParamsElement(args, end);
      var params := Wrap("params", Params(args));
      LeafParses("methodName", cmd, params + end);
      TwoParse("methodCall", name, Leaf("methodName", cmd), params, Element("params", ParamTrees(args)), "");
    }
  }

  lemma CallParts(cmd: string, args: List<Value>)
    requires AllSendable(args) && AllSupported(args)
    ensures var kids := Children(CallTree(cmd, args));
            && FirstNamed(kids, "methodName") == Some(Leaf("methodName", cmd))
            && TextOf(Children(Leaf("methodName", cmd))) == cmd
            && FirstNamed(kids, "params")
               == (if args.Nil? then None else Some(Element("params", ParamTrees(args))))
            && Data(ParamTrees(args)) == args
  {
    TextOfNodes(cmd);
    ParamsReadBack(args);
    assert FirstNamed(TextNodes(cmd), "params") == None;
  }

  /** A call is understood as it was meant: the same method and arguments. */
  lemma CallReadsBack(cmd: string, args: List<Value>)
    requires CleanText(cmd) && !Blank(cmd) && AllSendable(args) && AllSupported(args) && AllNoBlank(args)
    ensures ReadCall(MarkupCall(cmd, args)) == Some((cmd, args))
  {
    CallParses(cmd, args);
    LeafText("methodName", cmd);
    ParamsPlain(args);
    assert PlainNodes(TextNodes(cmd));
    MessageReads(CallBody(cmd, args), CallTree(cmd, args));
    CallParts(cmd, args);
  }

  /** Different calls never have the same markup, blank texts included. */
  lemma CallUnique(cmd1: string, args1: List<Value>, cmd2: string, args2: List<Value>)
    requires CleanText(cmd1) && AllSendable(args1) && AllSupported(args1)
    requires CleanText(cmd2) && AllSendable(args2) && AllSupported(args2)
    requires MarkupCall(cmd1, args1) == MarkupCall(cmd2, args2)
    ensures cmd1 == cmd2 && args1 == args2
  {
    var s1, s2 := MarkupCall(cmd1, args1), MarkupCall(cmd2, args2);
    assert s1[|PROLOG|..] == CallBody(cmd1, args1) && s2[|PROLOG|..] == CallBody(cmd2, args2);
    CallParses(cmd1, args1);
    CallParses(cmd2, args2);
    CallParts(cmd1, args1);
    CallParts(cmd2, args2);
  }

  // ----- responses

  lemma ResponseParses(tag: string, inner: string, n: Node)
    requires Opens(inner) && ParseElement(inner + (Close(tag) + "")) == Good(n, Close(tag) + "")
    requires Name(tag) && PlainNodes(Cons(n, Nil))
    ensures ReadMessage(PROLOG + Wrap(tag, inner)) == Some(Only(tag, n))
  {
    OnlyParses(tag, inner, n, "");
    assert Wrap(tag, inner) + "" == Wrap(tag, inner);
    MessageReads(Wrap(tag, inner), Only(tag, n));
  }

  /** The data of a response arrive as they were sent. */
  lemma ResponseReadsBack(data: List<Value>)
    requires AllSendable(data) && AllSupported(data) && AllNoBlank(data)
    ensures ParseResponse(ResponseText(data)) == Response(true, 0, "", data)
  {
    Tags();
    var params := Element("params", ParamTrees(data));
    ParamsElement(data, Close("methodResponse") + "");
    ParamsPlain(data);
    ResponseParses("methodResponse", Wrap("params", Params(data)), params);
    LowerClean("params");
    ParamsReadBack(data);
    assert FirstTag(Only("methodResponse", params)) == "params";
  }

  /** A structure of two members. */
  function Two(k1: string, v1: Value, k2: string, v2: Value): Value {
    Struct(Cons(Member(k1, v1), Cons(Member(k2, v2), Nil)))
  }

  lemma TwoFits(k1: string, v1: Value, k2: string, v2: Value)
    requires CleanText(k1) && CleanText(k2) && !Blank(k1) && !Blank(k2) && StringLess(k1, k2)
    requires Sendable(v1) && Supported(v1) && NoBlank(v1) && Sendable(v2) && Supported(v2) && NoBlank(v2)
    ensures var v := Two(k1, v1, k2, v2); Sendable(v) && Supported(v) && NoBlank(v)
  {
    var rest := Cons(Member(k2, v2), Nil);
    assert KeyBelow(k1, rest) && KeyBelow(k2, Nil);
    assert MembersSendable(rest) && MembersSupported(rest) && MembersNoBlank(rest);
  }

  lemma TwoLookup(k1: string, v1: Value, k2: string, v2: Value)
    requires k1 != k2
    ensures MemberOf(Two(k1, v1, k2, v2), k1) == v1 && MemberOf(Two(k1, v1, k2, v2), k2) == v2
  {
    var rest := Cons(Member(k2, v2), Nil);
    assert Lookup(rest, k2) == v2;
  }

  lemma FaultKeyOrder()
    ensures StringLess("faultCode", "faultString") && "faultCode" != "faultString"
  {
    CommonPrefix("fault", "Code", "String");
    assert "fault" + "Code" == "faultCode" && "fault" + "String" == "faultString";
    assert "faultCode"[5] != "faultString"[5];
  }

  lemma FaultKeysClean()
    ensures CleanText("faultCode") && CleanText("faultString") && !Blank("faultCode") && !Blank("faultString")
  {
    assert !IsSpace("faultString"[0]) && !IsSpace("faultCode"[0]);
  }

  lemma FaultIsSendable(code: int, text: string)
    requires Int32(code) && CleanText(text) && !Blank(text)
    ensures Sendable(FaultValue(code, text)) && Supported(FaultValue(code, text)) && NoBlank(FaultValue(code, text))
    ensures MemberOf(FaultValue(code, text), "faultCode") == Int(code)
    ensures MemberOf(FaultValue(code, text), "faultString") == Str(text)
  {
    FaultKeyOrder();
    FaultKeysClean();
    TwoFits("faultCode", Int(code), "faultString", Str(text));
    TwoLookup("faultCode", Int(code), "faultString", Str(text));
  }

  lemma {:induction false} CommonPrefix(p: string, a: string, b: string)
    requires StringLess(a, b)
    ensures StringLess(p + a, p + b)
  {
    if p == "" {
      assert p + a == a && p + b == b;
    } else {
      CommonPrefix(p[1..], a, b);
      assert (p + a)[1..] == p[1..] + a && (p + b)[1..] == p[1..] + b;
    }
  }

  lemma FaultParses(v: Value)
    requires Sendable(v) && NoBlank(v)
    ensures ReadMessage(PROLOG + Wrap("methodResponse", Wrap("fault", Marshal(v))))
         == Some(Only("methodResponse", Only("fault", Tree(v))))
  {
    Tags();
    var end := Close("methodResponse") + "";
    MarshalOpens(v);
    MarshalParses(v, Close("fault") + end);
    OnlyParses("fault", Marshal(v), Tree(v), end);
    WrapOpens("fault", Marshal(v));
    TreeText(v);
    ResponseParses("methodResponse", Wrap("fault", Marshal(v)), Only("fault", Tree(v)));
  }

  /** A fault is reported with the two members of its value. */
  lemma FaultTextReads(v: Value)
    requires Sendable(v) && Supported(v) && NoBlank(v)
    ensures ParseResponse(PROLOG + Wrap("methodResponse", Wrap("fault", Marshal(v))))
         == Response(false, AsInt(MemberOf(v, "faultCode")), AsString(MemberOf(v, "faultString")), Nil)
  {
    FaultParses(v);
    TreeReadsBack(v);
    LowerClean("fault");
    var fault := Only("fault", Tree(v));
    assert FirstTag(Only("methodResponse", fault)) == "fault";
    assert FirstValue(fault) == v;
  }

  /** A fault is reported with its code and its text. */
  lemma FaultReadsBack(code: int, text: string)
    requires Int32(code) && CleanText(text) && !Blank(text)
    ensures ParseResponse(FaultText(code, text)) == Response(false, code, text, Nil)
  {
    FaultIsSendable(code, text);
    FaultTextReads(FaultValue(code, text));
  }
}
