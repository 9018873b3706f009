// JSON texts: values, and the ways they may be printed (RFC 8259, sections 2 to 7).
module Json {
  datatype Item =
    | Plain(c: char)
    | Escape(c: char)
    | Unicode(a: char, b: char, c: char, d: char)

  /** White space may stand around every value and every structural character. */
  datatype Value =
    | Scalar(text: string)
    | Str(items: seq<Item>)
    | Arr(space: string, elements: seq<Element>)
    | Obj(space: string, members: seq<Member>)

  datatype Element = Element(before: string, value: Value, after: string)

  datatype Member = Member(before: string, key: seq<Item>, between: string, element: Element)

  predicate IsHex(c: char) {
    '0' <= c <= '9' || 'a' <= c <= 'f' || 'A' <= c <= 'F'
  }

  predicate ValidItem(item: Item) {
    match item
    case Plain(c) => c >= ' ' && c != '"' && c != '\\'
    case Escape(c) => c in "\"\\/bfnrt"
    case Unicode(a, b, c, d) => IsHex(a) && IsHex(b) && IsHex(c) && IsHex(d)
  }

  predicate IsSpace(s: string) {
    forall i :: 0 <= i < |s| ==> s[i] in " \t\n\r"
  }

  /** The literal names, and the characters of numbers. */
  predicate IsScalar(s: string) {
    s == "null" || s == "true" || s == "false"
    || (s != "" && forall i :: 0 <= i < |s| ==> '0' <= s[i] <= '9' || s[i] in "+-.eE")
  }

  predicate ValidItems(items: seq<Item>) {
    forall i :: 0 <= i < |items| ==> ValidItem(items[i])
  }

  predicate Valid(v: Value) {
    match v
    case Scalar(text) => IsScalar(text)
    case Str(items) => ValidItems(items)
    case Arr(space, elements) => IsSpace(space) && forall i :: 0 <= i < |elements| ==> ValidElement(elements[i])
    case Obj(space, members) => IsSpace(space) && forall i :: 0 <= i < |members| ==> ValidMember(members[i])
  }

  predicate ValidElement(e: Element) {
    IsSpace(e.before) && IsSpace(e.after) && Valid(e.value)
  }

  predicate ValidMember(m: Member) {
    IsSpace(m.before) && IsSpace(m.between) && ValidItems(m.key) && ValidElement(m.element)
  }

  function PrintItem(item: Item): string {
    match item
    case Plain(c) => [c]
    case Escape(c) => ['\\', c]
    case Unicode(a, b, c, d) => ['\\', 'u', a, b, c, d]
  }

  function PrintItems(items: seq<Item>): string {
    if items == [] then "" else PrintItem(items[0]) + PrintItems(items[1..])
  }

  function PrintString(items: seq<Item>): string {
    "\"" + PrintItems(items) + "\""
  }

  function Print(v: Value): string
    decreases v, 1
  {
    match v
    case Scalar(text) => text
    case Str(items) => PrintString(items)
    case Arr(space, elements) => "[" + space + PrintElements(elements) + "]"
    case Obj(space, members) => "{" + space + PrintMembers(members) + "}"
  }

  function PrintElement(e: Element): string {
    e.before + Print(e.value) + e.after
  }

  function PrintMember(m: Member): string {
    m.before + PrintString(m.key) + m.between + ":" + PrintElement(m.element)
  }

  function PrintElements(elements: seq<Element>): string
    decreases elements, 0
  {
    if elements == [] then ""
    else PrintElement(elements[0]) + (if |elements| == 1 then "" else ",") + PrintElements(elements[1..])
  }

  function PrintMembers(members: seq<Member>): string
    decreases members, 0
  {
    if members == [] then ""
    else PrintMember(members[0]) + (if |members| == 1 then "" else ",") + PrintMembers(members[1..])
  }
}
