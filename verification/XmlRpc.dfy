/** XML-RPC values as dcoprss marshals and demarshals them
    (dcoprss/xmlrpciface.cpp).

    The source leaves parsing to QDom.  `ParseElement` stands for it on the
    markup that occurs here: elements without attributes and text without
    entities; `DropBlank` is QDom's removal of whitespace-only text. */
module XmlRpc {
  import opened Sequences
  import opened Text

  datatype List<T> = Nil | Cons(head: T, tail: List<T>)

  datatype Member = Member(key: string, value: Value)

  /** The QVariant types of this model; Other is any type `marshal` does not
      know, and the invalid variant. */
  datatype Value =
    | Str(s: string)
    | Int(i: int)
    | Bool(b: bool)
    | Array(items: List<Value>)
    | Struct(members: List<Member>)
    | Other

  datatype Node = Element(tag: string, children: List<Node>) | Text(data: string)

  // ----- numbers

  function NatText(n: nat): (r: string)
    ensures r != ""
    ensures forall i | 0 <= i < |r| :: '0' <= r[i] <= '9'
  {
    if n < 10 then [(n + '0' as int) as char]
    else NatText(n / 10) + [(n % 10 + '0' as int) as char]
  }

  function IntText(i: int): string {
    if i < 0 then "-" + NatText(-i) else NatText(i)
  }

  predicate Digits(s: string) {
    s != "" && forall i | 0 <= i < |s| :: '0' <= s[i] <= '9'
  }

  function DigitOf(c: char): (r: nat) {
    if '0' <= c <= '9' then (c as int) - ('0' as int) else 0
  }

  function NatOf(s: string): nat {
    if s == "" then 0 else 10 * NatOf(s[..|s| - 1]) + DigitOf(s[|s| - 1])
  }

  predicate Int32(i: int) {
    -0x8000_0000 <= i <= 0x7fff_ffff
  }

  /** `QString::toInt`: 0 for anything that is not a number or does not fit. */
  function ToInt(s: string): int {
    if s != "" && s[0] == '-' then Fit(0 - NatIn(s[1..])) else Fit(NatIn(s))
  }

  function Fit(i: int): int {
    if Int32(i) then i else 0
  }

  function NatIn(s: string): nat {
    if Digits(s) then NatOf(s) else 0
  }

  lemma {:induction false} NatOfText(n: nat)
    ensures NatOf(NatText(n)) == n
  {
    if n >= 10 {
      NatOfText(n / 10);
      assert NatText(n)[..|NatText(n)| - 1] == NatText(n / 10);
    } else {
      assert NatText(n)[..0] == "";
    }
  }

  lemma NatInText(n: nat)
    ensures NatIn(NatText(n)) == n && NatText(n)[0] != '-'
  {
    NatOfText(n);
    var t := NatText(n);
    assert '0' <= t[0] <= '9';
    assert Digits(t);
  }

  /** A number that does not fit into 32 bits is read as 0. */
  lemma IntRoundTrip(i: int)
    ensures ToInt(IntText(i)) == if Int32(i) then i else 0
  {
    var n: nat := if i < 0 then -i else i;
    var t := NatText(n);
    NatInText(n);
    assert ("-" + t)[0] == '-' && ("-" + t)[1..] == t;
  }

  // ----- marshal

  function Wrap(tag: string, inner: string): string {
    "<" + tag + ">" + inner + "</" + tag + ">"
  }

  function Marshal(v: Value): string
    decreases v, 1
  {
    if v.Other? then "<value/>" else Wrap("value", Payload(v))
  }

  function Payload(v: Value): string
    requires !v.Other?
    decreases v, 0
  {
    match v
    case Str(s) => Wrap("string", s)
    case Int(i) => Wrap("int", IntText(i))
    case Bool(b) => Wrap("boolean", if b then "true" else "false")
    case Array(items) => Wrap("array", Wrap("data", MarshalAll(items)))
    case Struct(members) => Wrap("struct", MarshalMembers(members))
  }

  function MarshalAll(vs: List<Value>): string {
    match vs
    case Nil => ""
    case Cons(v, rest) => Marshal(v) + MarshalAll(rest)
  }

  function MarshalMembers(ms: List<Member>): string {
    match ms
    case Nil => ""
    case Cons(m, rest) => Wrap("member", Wrap("name", m.key) + Marshal(m.value)) + MarshalMembers(rest)
  }

  // ----- the tree the markup stands for

  ghost function TextNodes(s: string): List<Node> {
    if s == "" then Nil else Cons(Text(s), Nil)
  }

  ghost function Leaf(tag: string, s: string): Node {
    Element(tag, TextNodes(s))
  }

  ghost function Only(tag: string, n: Node): Node {
    Element(tag, Cons(n, Nil))
  }

  ghost function Tree(v: Value): Node
    decreases v, 1
  {
    if v.Other? then Element("value", Nil) else Only("value", TypeTree(v))
  }

  ghost function TypeTree(v: Value): Node
    requires !v.Other?
    decreases v, 0
  {
    match v
    case Str(s) => Leaf("string", s)
    case Int(i) => Leaf("int", IntText(i))
    case Bool(b) => Leaf("boolean", if b then "true" else "false")
    case Array(items) => Only("array", Element("data", Trees(items)))
    case Struct(members) => Element("struct", MemberTrees(members))
  }

  ghost function Trees(vs: List<Value>): List<Node> {
    match vs
    case Nil => Nil
    case Cons(v, rest) => Cons(Tree(v), Trees(rest))
  }

  ghost function MemberTree(m: Member): Node
    decreases m
  {
    Element("member", Cons(Leaf("name", m.key), Cons(Tree(m.value), Nil)))
  }

  ghost function MemberTrees(ms: List<Member>): List<Node> {
    match ms
    case Nil => Nil
    case Cons(m, rest) => Cons(MemberTree(m), MemberTrees(rest))
  }

  // ----- parsing

  datatype Parsed<T> = Bad | Good(value: T, rest: string)

  predicate NameChar(c: char) {
    c != '<' && c != '>' && c != '/'
  }

  function NameLength(s: string): (n: nat)
    ensures n <= |s|
  {
    if s == "" || !NameChar(s[0]) then 0 else 1 + NameLength(s[1..])
  }

  function TextLength(s: string): (n: nat)
    ensures n <= |s|
    ensures s != "" && s[0] != '<' ==> n > 0
  {
    if s == "" || s[0] == '<' then 0 else 1 + TextLength(s[1..])
  }

  predicate StartsWith(s: string, t: string) {
    |t| <= |s| && s[..|t|] == t
  }

  function ParseElement(s: string): (r: Parsed<Node>)
    ensures r.Good? ==> |r.rest| < |s|
    decreases |s|, 0
  {
    if s == "" || s[0] != '<' then Bad
    else
      var n := NameLength(s[1..]);
      var tag, after := s[1..][..n], s[1..][n..];
      if n == 0 then Bad
      else if StartsWith(after, "/>") then Good(Element(tag, Nil), after[2..])
      else if !StartsWith(after, ">") then Bad
      else
        match ParseContent(after[1..])
        case Bad => Bad
        case Good(children, rest) =>
          if StartsWith(rest, "</" + tag + ">")
          then Good(Element(tag, children), rest[|tag| + 3..])
          else Bad
  }

  function ParseContent(s: string): (r: Parsed<List<Node>>)
    ensures r.Good? ==> |r.rest| <= |s|
    decreases |s|, 1
  {
    if s == "" then Bad
    else if StartsWith(s, "</") then Good(Nil, s)
    else if s[0] == '<' then
      match ParseElement(s)
      case Bad => Bad
      case Good(node, rest) =>
        (match ParseContent(rest)
         case Bad => Bad
         case Good(nodes, end) => Good(Cons(node, nodes), end))
    else
      var n := TextLength(s);
      if '&' in s[..n] then Bad
      else
        match ParseContent(s[n..])
        case Bad => Bad
        case Good(nodes, end) => Good(Cons(Text(s[..n]), nodes), end)
  }

  predicate Blank(s: string) {
    s != "" && forall i | 0 <= i < |s| :: IsSpace(s[i])
  }

  function DropBlank(ns: List<Node>): List<Node> {
    match ns
    case Nil => Nil
    case Cons(Text(d), rest) => if Blank(d) then DropBlank(rest) else Cons(Text(d), DropBlank(rest))
    case Cons(Element(t, kids), rest) => Cons(Element(t, DropBlank(kids)), DropBlank(rest))
  }

  /** What `setContent` makes of a document with one root element. */
  function ReadDocument(s: string): Option<Node> {
    match ParseElement(s)
    case Bad => None
    case Good(n, rest) => if rest == "" then Some(DropBlank(Cons(n, Nil)).head) else None
  }

  // ----- demarshal

  function Size(n: Node): (r: nat)
    ensures r > 0
  {
    match n
    case Text(_) => 1
    case Element(_, kids) => 1 + SizeAll(kids)
  }

  function SizeAll(ns: List<Node>): nat {
    match ns
    case Nil => 0
    case Cons(n, rest) => Size(n) + SizeAll(rest)
  }

  /** `QDomElement::text`: all text below, in document order. */
  function TextOf(ns: List<Node>): string {
    match ns
    case Nil => ""
    case Cons(Text(d), rest) => d + TextOf(rest)
    case Cons(Element(_, kids), rest) => TextOf(kids) + TextOf(rest)
  }

  /** `elementsByTagName(tag).item(0)`: the first descendant of that name in
      document order. */
  function FirstNamed(ns: List<Node>, tag: string): (r: Option<Node>)
    ensures r.Some? ==> Size(r.value) <= SizeAll(ns)
  {
    match ns
    case Nil => None
    case Cons(Text(_), rest) => FirstNamed(rest, tag)
    case Cons(Element(t, kids), rest) =>
      if t == tag then Some(Element(t, kids))
      else if FirstNamed(kids, tag).Some? then FirstNamed(kids, tag)
      else FirstNamed(rest, tag)
  }

  function Children(n: Node): (r: List<Node>)
    ensures SizeAll(r) < Size(n)
  {
    match n
    case Text(_) => Nil
    case Element(_, kids) => kids
  }

  function ChildrenOfFirst(ns: List<Node>): (r: List<Node>)
    requires ns.Cons?
    ensures SizeAll(r) < SizeAll(ns)
  {
    Children(ns.head)
  }

  predicate StringLess(a: string, b: string) {
    b != "" && (a == "" || a[0] < b[0] || (a[0] == b[0] && StringLess(a[1..], b[1..])))
  }

  /** `map[key] = value` on a QMap, whose entries are kept in key order. */
  function Insert(ms: List<Member>, key: string, value: Value): List<Member> {
    match ms
    case Nil => Cons(Member(key, value), Nil)
    case Cons(m, rest) =>
      if m.key == key then Cons(Member(key, value), rest)
      else if StringLess(key, m.key) then Cons(Member(key, value), ms)
      else Cons(m, Insert(rest, key, value))
  }

  function Demarshal(n: Node): Value
    decreases Size(n), 0
  {
    var kids := Children(n);
    if kids.Nil? || kids.head.Text? then Str(TextOf(kids))
    else
      var t := kids.head;
      assert Size(t) <= SizeAll(kids);
      var name, text := Lower(t.tag), TextOf(t.children);
      if name == "string" then Str(text)
      else if name == "i4" || name == "int" then Int(ToInt(text))
      else if name == "boolean" then Bool(Lower(text) == "true" || text == "1")
      else if name == "array" then
        Array(if t.children.Nil? then Nil else DemarshalAll(ChildrenOfFirst(t.children)))
      else if name == "struct" then Struct(DemarshalMembers(t.children, Nil))
      else Other
  }

  function DemarshalAll(ns: List<Node>): List<Value>
    decreases SizeAll(ns), 1
  {
    match ns
    case Nil => Nil
    case Cons(n, rest) => Cons(Demarshal(n), DemarshalAll(rest))
  }

  function DemarshalMembers(ns: List<Node>, acc: List<Member>): List<Member>
    decreases SizeAll(ns), 1
  {
    match ns
    case Nil => acc
    case Cons(n, rest) => DemarshalMembers(rest, Insert(acc, MemberKey(n), MemberValue(n)))
  }

  function MemberKey(n: Node): string {
    match FirstNamed(Children(n), "name")
    case None => ""
    case Some(e) => TextOf(Children(e))
  }

  function MemberValue(n: Node): Value
    decreases Size(n), 0
  {
    match FirstNamed(Children(n), "value")
    case None => Str("")
    case Some(e) => Demarshal(e)
  }

  // ----- values that can be sent

  predicate CleanText(s: string) {
    '<' !in s && '&' !in s
  }

  ghost predicate Sendable(v: Value) {
    match v
    case Str(s) => CleanText(s)
    case Int(i) => Int32(i)
    case Array(items) => AllSendable(items)
    case Struct(members) => MembersSendable(members)
    case _ => true
  }

  ghost predicate AllSendable(vs: List<Value>) {
    vs.Nil? || (Sendable(vs.head) && AllSendable(vs.tail))
  }

  /** Clean keys in strictly ascending order, as in every QMap. */
  ghost predicate MembersSendable(ms: List<Member>) {
    ms.Nil? || (CleanText(ms.head.key) && Sendable(ms.head.value)
                && KeyBelow(ms.head.key, ms.tail) && MembersSendable(ms.tail))
  }

  /** A value a QVariant can hold: numbers of 32 bits, keys in ascending order. */
  ghost predicate Storable(v: Value) {
    match v
    case Int(i) => Int32(i)
    case Array(items) => AllStorable(items)
    case Struct(members) => MembersStorable(members)
    case _ => true
  }

  ghost predicate AllStorable(vs: List<Value>) {
    vs.Nil? || (Storable(vs.head) && AllStorable(vs.tail))
  }

  ghost predicate MembersStorable(ms: List<Member>) {
    ms.Nil? || (Storable(ms.head.value) && KeyBelow(ms.head.key, ms.tail) && MembersStorable(ms.tail))
  }

  /** No string or key with a character that has to be escaped. */
  ghost predicate Clean(v: Value) {
    match v
    case Str(s) => CleanText(s)
    case Array(items) => AllClean(items)
    case Struct(members) => MembersClean(members)
    case _ => true
  }

  ghost predicate AllClean(vs: List<Value>) {
    vs.Nil? || (Clean(vs.head) && AllClean(vs.tail))
  }

  ghost predicate MembersClean(ms: List<Member>) {
    ms.Nil? || (CleanText(ms.head.key) && Clean(ms.head.value) && MembersClean(ms.tail))
  }

  ghost predicate KeyBelow(key: string, ms: List<Member>) {
    ms.Nil? || (StringLess(key, ms.head.key) && KeyBelow(key, ms.tail))
  }

  /** No part of an unsupported type. */
  ghost predicate Supported(v: Value) {
    match v
    case Other => false
    case Array(items) => AllSupported(items)
    case Struct(members) => MembersSupported(members)
    case _ => true
  }

  ghost predicate AllSupported(vs: List<Value>) {
    vs.Nil? || (Supported(vs.head) && AllSupported(vs.tail))
  }

  ghost predicate MembersSupported(ms: List<Member>) {
    ms.Nil? || (Supported(ms.head.value) && MembersSupported(ms.tail))
  }

  /** No string or key that consists of white space only. */
  ghost predicate NoBlank(v: Value) {
    match v
    case Str(s) => !Blank(s)
    case Array(items) => AllNoBlank(items)
    case Struct(members) => MembersNoBlank(members)
    case _ => true
  }

  ghost predicate AllNoBlank(vs: List<Value>) {
    vs.Nil? || (NoBlank(vs.head) && AllNoBlank(vs.tail))
  }

  ghost predicate MembersNoBlank(ms: List<Member>) {
    ms.Nil? || (!Blank(ms.head.key) && NoBlank(ms.head.value) && MembersNoBlank(ms.tail))
  }
}
