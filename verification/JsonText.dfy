/**
 * The grammar of RFC 8259 as trees of source text: every tree renders to one JSON text, and
 * a text is well formed when some well-formed tree renders to it. Characters are UTF-16 code
 * units, as the program's strings are.
 */
module JsonText {
  import opened Wrappers

  type Unit = c: int | 0 <= c < 0x1_0000

  const QUOTE: Unit := 0x22
  const BACKSLASH: Unit := 0x5C
  const OPEN_BRACE: Unit := 0x7B
  const CLOSE_BRACE: Unit := 0x7D
  const OPEN_BRACKET: Unit := 0x5B
  const CLOSE_BRACKET: Unit := 0x5D
  const COLON: Unit := 0x3A
  const COMMA: Unit := 0x2C

  /** Section 2: space, horizontal tab, line feed, carriage return. */
  predicate IsWs(c: Unit) {
    c == 0x20 || c == 0x09 || c == 0x0A || c == 0x0D
  }

  predicate IsDigit(c: Unit) { 0x30 <= c <= 0x39 }

  predicate IsHex(c: Unit) { IsDigit(c) || 0x41 <= c <= 0x46 || 0x61 <= c <= 0x66 }

  function HexValue(c: Unit): (v: nat)
    requires IsHex(c)
    ensures v < 16
  {
    if IsDigit(c) then c - 0x30 else if c <= 0x46 then c - 0x37 else c - 0x57
  }

  /** Section 7: one character of a string as written. */
  datatype StringItem = Plain(c: Unit) | Short(letter: Unit) | Hex(digits: seq<Unit>)

  predicate IsPlain(c: Unit) { 0x20 <= c && c != QUOTE && c != BACKSLASH }

  /** What a one-letter escape stands for, if the letter may be escaped. */
  function ShortMeaning(letter: Unit): Option<Unit> {
    if letter == QUOTE || letter == BACKSLASH || letter == 0x2F then Some(letter)
    else if letter == 0x62 then Some(0x08)
    else if letter == 0x66 then Some(0x0C)
    else if letter == 0x6E then Some(0x0A)
    else if letter == 0x72 then Some(0x0D)
    else if letter == 0x74 then Some(0x09)
    else None
  }

  predicate WfItem(item: StringItem) {
    match item
    case Plain(c) => IsPlain(c)
    case Short(letter) => ShortMeaning(letter).Some?
    case Hex(digits) => |digits| == 4 && forall i :: 0 <= i < 4 ==> IsHex(digits[i])
  }

  function RenderItem(item: StringItem): seq<Unit> {
    match item
    case Plain(c) => [c]
    case Short(letter) => [BACKSLASH, letter]
    case Hex(digits) => [BACKSLASH, 0x75] + digits
  }

  /** The code unit an item stands for. */
  function Meaning(item: StringItem): Unit
    requires WfItem(item)
  {
    match item
    case Plain(c) => c
    case Short(letter) => ShortMeaning(letter).value
    case Hex(d) => HexValue(d[0]) * 4096 + HexValue(d[1]) * 256 + HexValue(d[2]) * 16 + HexValue(d[3])
  }

  predicate WfString(items: seq<StringItem>) {
    forall i :: 0 <= i < |items| ==> WfItem(items[i])
  }

  function RenderItems(items: seq<StringItem>): seq<Unit> {
    if items == [] then [] else RenderItem(items[0]) + RenderItems(items[1..])
  }

  function RenderString(items: seq<StringItem>): seq<Unit> {
    [QUOTE] + RenderItems(items) + [QUOTE]
  }

  function Decoded(items: seq<StringItem>): seq<Unit>
    requires WfString(items)
  {
    if items == [] then [] else [Meaning(items[0])] + Decoded(items[1..])
  }

  /** Section 6: a number as written. */
  datatype Number = Number(minus: bool, whole: seq<Unit>, frac: Option<seq<Unit>>, exp: Option<Exponent>)

  datatype Exponent = Exponent(letter: Unit, sign: Option<Unit>, digits: seq<Unit>)

  predicate Digits(s: seq<Unit>) {
    s != [] && forall i :: 0 <= i < |s| ==> IsDigit(s[i])
  }

  predicate WfNumber(n: Number) {
    && Digits(n.whole) && (n.whole[0] == 0x30 ==> |n.whole| == 1)
    && (n.frac.Some? ==> Digits(n.frac.value))
    && (n.exp.Some? ==>
          && (n.exp.value.letter == 0x65 || n.exp.value.letter == 0x45)
          && (n.exp.value.sign.Some? ==> n.exp.value.sign.value == 0x2B || n.exp.value.sign.value == 0x2D)
          && Digits(n.exp.value.digits))
  }

  function RenderNumber(n: Number): seq<Unit> {
    (if n.minus then [0x2D] else []) + n.whole
    + (if n.frac.Some? then [0x2E] + n.frac.value else [])
    + (if n.exp.Some? then
         [n.exp.value.letter] + (if n.exp.value.sign.Some? then [n.exp.value.sign.value] else [])
         + n.exp.value.digits
       else [])
  }

  /** Sections 3 to 5. White space around the structural characters is kept where it is written. */
  datatype Value =
    | True
    | False
    | Null
    | Numeric(number: Number)
    | Text(items: seq<StringItem>)
    | Array(gap: seq<Unit>, elements: seq<Element>)
    | Object(gap: seq<Unit>, members: seq<Member>)

  datatype Element = Element(before: seq<Unit>, value: Value, after: seq<Unit>)

  datatype Member = Member(before: seq<Unit>, name: seq<StringItem>, afterName: seq<Unit>,
                           beforeValue: seq<Unit>, value: Value, after: seq<Unit>)

  predicate Blank(s: seq<Unit>) {
    forall i :: 0 <= i < |s| ==> IsWs(s[i])
  }

  predicate Wf(v: Value) {
    match v
    case Numeric(n) => WfNumber(n)
    case Text(items) => WfString(items)
    case Array(gap, elements) =>
      Blank(gap) && (elements != [] ==> gap == []) && (forall i :: 0 <= i < |elements| ==> WfElement(elements[i]))
    case Object(gap, members) =>
      Blank(gap) && (members != [] ==> gap == []) && (forall i :: 0 <= i < |members| ==> WfMember(members[i]))
    case _ => true
  }

  predicate WfElement(e: Element) {
    Blank(e.before) && Wf(e.value) && Blank(e.after)
  }

  predicate WfMember(m: Member) {
    && Blank(m.before) && WfString(m.name) && Blank(m.afterName)
    && Blank(m.beforeValue) && Wf(m.value) && Blank(m.after)
  }

  function Render(v: Value): seq<Unit>
    decreases v
  {
    match v
    case True => [0x74, 0x72, 0x75, 0x65]
    case False => [0x66, 0x61, 0x6C, 0x73, 0x65]
    case Null => [0x6E, 0x75, 0x6C, 0x6C]
    case Numeric(n) => RenderNumber(n)
    case Text(items) => RenderString(items)
    case Array(gap, elements) => [OPEN_BRACKET] + (gap + (RenderElements(elements) + [CLOSE_BRACKET]))
    case Object(gap, members) => [OPEN_BRACE] + (gap + (RenderMembers(members) + [CLOSE_BRACE]))
  }

  function RenderElement(e: Element): seq<Unit>
    decreases e
  {
    e.before + (Render(e.value) + e.after)
  }

  function RenderElements(es: seq<Element>): seq<Unit>
    decreases es
  {
    if es == [] then []
    else RenderElement(es[0]) + if |es| == 1 then [] else [COMMA] + RenderElements(es[1..])
  }

  function RenderMember(m: Member): seq<Unit>
    decreases m
  {
    m.before + (RenderString(m.name) + (m.afterName + ([COLON] + (m.beforeValue + (Render(m.value) + m.after)))))
  }

  function RenderMembers(ms: seq<Member>): seq<Unit>
    decreases ms
  {
    if ms == [] then []
    else RenderMember(ms[0]) + if |ms| == 1 then [] else [COMMA] + RenderMembers(ms[1..])
  }
}
