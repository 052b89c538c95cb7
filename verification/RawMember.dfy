/**
 * `extractRawJsonMember`: the hand-written scanner that slices one member's value out of a
 * request body, and its agreement with the grammar of `JsonText`.
 */
module RawMember {
  import opened Wrappers
  import opened JsonText

  /** Every way the scanner, or the parse of a member name, gives up on a body. */
  datatype Malformed =
    | ExpectedObject
    | ExpectedName
    | UnterminatedString
    | ExpectedColon
    | BadValue
    | BadName
    | ExpectedSeparator

  type Found = Option<seq<Unit>>

  // ------------------------------------------------- what the scanners compute

  predicate IsAt(s: seq<Unit>, i: nat, c: Unit) {
    i < |s| && s[i] == c
  }

  /** The first index from `i` on that holds no white space. */
  function WsEnd(s: seq<Unit>, i: nat): (e: nat)
    ensures i <= e && (i <= |s| ==> e <= |s|)
    decreases |s| - i
  {
    if i < |s| && IsWs(s[i]) then WsEnd(s, i + 1) else i
  }

  /** Past the closing quote, when `i` is inside a string. */
  function StringEnd(s: seq<Unit>, i: nat): (e: Option<nat>)
    ensures e.Some? ==> i < e.value <= |s|
    decreases if i < |s| then |s| - i else 0
  {
    if i >= |s| then None
    else if s[i] == BACKSLASH then StringEnd(s, i + 2)
    else if s[i] == QUOTE then Some(i + 1)
    else StringEnd(s, i + 1)
  }

  predicate IsOpen(c: Unit) { c == OPEN_BRACE || c == OPEN_BRACKET }

  predicate IsClose(c: Unit) { c == CLOSE_BRACE || c == CLOSE_BRACKET }

  /** Past the bracket that brings `depth` back to zero; strings are skipped whole. */
  function BracketEnd(s: seq<Unit>, i: nat, depth: int): (e: Option<nat>)
    ensures e.Some? ==> i < e.value <= |s|
    decreases if i < |s| then |s| - i else 0
  {
    if i >= |s| then None
    else if s[i] == QUOTE then
      var e := StringEnd(s, i + 1);
      if e.None? then None else BracketEnd(s, e.value, depth)
    else if IsOpen(s[i]) then BracketEnd(s, i + 1, depth + 1)
    else if IsClose(s[i]) then
      if depth == 1 then Some(i + 1) else BracketEnd(s, i + 1, depth - 1)
    else BracketEnd(s, i + 1, depth)
  }

  predicate EndsScalar(c: Unit) {
    c == COMMA || IsClose(c) || IsWs(c)
  }

  function ScalarEnd(s: seq<Unit>, i: nat): (e: nat)
    ensures i <= e && (i <= |s| ==> e <= |s|)
    decreases |s| - i
  {
    if i < |s| && !EndsScalar(s[i]) then ScalarEnd(s, i + 1) else i
  }

  function ValueEnd(s: seq<Unit>, i: nat): (e: Option<nat>)
    ensures e.Some? ==> i < e.value && (i <= |s| ==> e.value <= |s|)
  {
    if IsAt(s, i, QUOTE) then StringEnd(s, i + 1)
    else if i < |s| && IsOpen(s[i]) then BracketEnd(s, i, 0)
    else if ScalarEnd(s, i) == i then None
    else Some(ScalarEnd(s, i))
  }

  /** The standard parse of a string's body, section 7. */
  function DecodeBody(s: seq<Unit>): Option<seq<Unit>> {
    if s == [] then Some([])
    else if s[0] == BACKSLASH then
      if |s| >= 6 && s[1] == 0x75 && (forall i :: 2 <= i < 6 ==> IsHex(s[i])) then
        Cons(HexValue(s[2]) * 4096 + HexValue(s[3]) * 256 + HexValue(s[4]) * 16 + HexValue(s[5]),
             DecodeBody(s[6..]))
      else if |s| >= 2 && ShortMeaning(s[1]).Some? then Cons(ShortMeaning(s[1]).value, DecodeBody(s[2..]))
      else None
    else if IsPlain(s[0]) then Cons(s[0], DecodeBody(s[1..]))
    else None
  }

  function Cons(c: Unit, rest: Option<seq<Unit>>): Option<seq<Unit>> {
    if rest.Some? then Some([c] + rest.value) else None
  }

  function DecodeString(raw: seq<Unit>): Option<seq<Unit>> {
    if |raw| >= 2 && raw[0] == QUOTE && raw[|raw| - 1] == QUOTE then DecodeBody(raw[1..|raw| - 1]) else None
  }

  /** One member from `i` on: where its value starts and ends, and its decoded name. */
  function MemberAt(s: seq<Unit>, i: nat): (r: Result<(nat, nat, seq<Unit>), Malformed>)
    ensures r.Success? ==> i < r.value.0 < r.value.1 <= |s|
  {
    if !IsAt(s, i, QUOTE) then Failure(ExpectedName)
    else
      var keyEnd := StringEnd(s, i + 1);
      if keyEnd.None? then Failure(UnterminatedString)
      else if !IsAt(s, WsEnd(s, keyEnd.value), COLON) then Failure(ExpectedColon)
      else
        var start := WsEnd(s, WsEnd(s, keyEnd.value) + 1);
        var end := ValueEnd(s, start);
        if end.None? then Failure(BadValue)
        else
          var name := DecodeString(s[i..keyEnd.value]);
          if name.None? then Failure(BadName) else Success((start, end.value, name.value))
  }

  function MembersFrom(s: seq<Unit>, key: seq<Unit>, i: nat, found: Found): Result<Found, Malformed>
    decreases if i < |s| then |s| - i else 0
  {
    match MemberAt(s, i)
    case Failure(e) => Failure(e)
    case Success((start, end, name)) =>
      var found' := if name == key then Some(s[start..end]) else found;
      var next := WsEnd(s, end);
      if IsAt(s, next, COMMA) then MembersFrom(s, key, WsEnd(s, next + 1), found')
      else if IsAt(s, next, CLOSE_BRACE) then Success(found')
      else Failure(ExpectedSeparator)
  }

  function Extracted(s: seq<Unit>, key: seq<Unit>): Result<Found, Malformed> {
    var open := WsEnd(s, 0);
    if !IsAt(s, open, OPEN_BRACE) then Failure(ExpectedObject)
    else
      var i := WsEnd(s, open + 1);
      if IsAt(s, i, CLOSE_BRACE) then Success(None) else MembersFrom(s, key, i, None)
  }

  // -------------------------------------------------------------- the scanners

  method SkipJsonWhitespace(source: seq<Unit>, index: nat) returns (i: nat)
    ensures i == WsEnd(source, index)
  {
    i := index;
    while i < |source|
      invariant index <= i && WsEnd(source, i) == WsEnd(source, index)
    {
      if !IsWs(source[i]) { break; }
      i := i + 1;
    }
  }

  method ScanJsonString(source: seq<Unit>, start: nat) returns (r: Option<nat>)
    ensures r == StringEnd(source, start + 1)
  {
    var i := start + 1;
    while i < |source|
      invariant StringEnd(source, i) == StringEnd(source, start + 1)
    {
      if source[i] == BACKSLASH {
        i := i + 2;
        continue;
      }
      if source[i] == QUOTE { return Some(i + 1); }
      i := i + 1;
    }
    r := None;
  }

  method ScanJsonValue(source: seq<Unit>, start: nat) returns (r: Option<nat>)
    ensures r == ValueEnd(source, start)
  {
    if start < |source| && source[start] == QUOTE {
      r := ScanJsonString(source, start);
      return;
    }
    if start < |source| && IsOpen(source[start]) {
      var depth, i := 0, start;
      while i < |source|
        invariant depth >= 0 && (i > start ==> depth > 0) && i >= start
        invariant BracketEnd(source, i, depth) == BracketEnd(source, start, 0)
        decreases |source| - i
      {
        var ch := source[i];
        if ch == QUOTE {
          var e := ScanJsonString(source, i);
          if e.None? { return None; }
          i := e.value;
          continue;
        }
        if IsOpen(ch) {
          depth := depth + 1;
        } else if IsClose(ch) {
          depth := depth - 1;
          if depth == 0 { return Some(i + 1); }
        }
        i := i + 1;
      }
      return None;
    }
    var i := start;
    while i < |source|
      invariant start <= i && ScalarEnd(source, i) == ScalarEnd(source, start)
    {
      if EndsScalar(source[i]) { break; }
      i := i + 1;
    }
    if i == start { return None; }
    r := Some(i);
  }

  /** One member: where its value starts and ends, and its parsed name. */
  method ReadMember(source: seq<Unit>, start: nat) returns (r: Result<(nat, nat, seq<Unit>), Malformed>)
    ensures r == MemberAt(source, start)
  {
    if !IsAt(source, start, QUOTE) { return Failure(ExpectedName); }
    var keyEnd := ScanJsonString(source, start);
    if keyEnd.None? { return Failure(UnterminatedString); }
    var rawKey := source[start..keyEnd.value];
    var i := SkipJsonWhitespace(source, keyEnd.value);
    if !IsAt(source, i, COLON) { return Failure(ExpectedColon); }
    i := SkipJsonWhitespace(source, i + 1);
    var valueEnd := ScanJsonValue(source, i);
    if valueEnd.None? { return Failure(BadValue); }
    var memberName := DecodeString(rawKey);
    if memberName.None? { return Failure(BadName); }
    r := Success((i, valueEnd.value, memberName.value));
  }

  /** The exact source text of the last top-level member named `key`. */
  method ExtractRawJsonMember(source: seq<Unit>, key: seq<Unit>) returns (r: Result<Found, Malformed>)
    ensures r == Extracted(source, key)
  {
    hide MemberAt, WsEnd;
    var i := SkipJsonWhitespace(source, 0);
    if !IsAt(source, i, OPEN_BRACE) { return Failure(ExpectedObject); }
    i := SkipJsonWhitespace(source, i + 1);
    if IsAt(source, i, CLOSE_BRACE) { return Success(None); }
    var found: Found := None;
    while true
      invariant MembersFrom(source, key, i, found) == Extracted(source, key)
      decreases if i < |source| then |source| - i else 0
    {
      var member := ReadMember(source, i);
      if member.Failure? { return Failure(member.error); }
      var (start, end, name) := member.value;
      if name == key { found := Some(source[start..end]); }
      var next := SkipJsonWhitespace(source, end);
      if IsAt(source, next, COMMA) {
        i := SkipJsonWhitespace(source, next + 1);
        continue;
      }
      if IsAt(source, next, CLOSE_BRACE) { return Success(found); }
      return Failure(ExpectedSeparator);
    }
  }

  // --------------------------------------------------- agreement with the grammar

  /** `t` is written in `s` from `i` on. */
  ghost predicate Here(s: seq<Unit>, i: nat, t: seq<Unit>)
    ensures Here(s, i, t) && i <= |s| ==> i + |t| <= |s|
    decreases |t|
  {
    t == [] || (i < |s| && s[i] == t[0] && Here(s, i + 1, t[1..]))
  }

  predicate AllElements(es: seq<Element>) {
    forall i :: 0 <= i < |es| ==> WfElement(es[i])
  }

  predicate AllMembers(ms: seq<Member>) {
    forall i :: 0 <= i < |ms| ==> WfMember(ms[i])
  }

  lemma {:induction false} HereSplit(s: seq<Unit>, i: nat, a: seq<Unit>, b: seq<Unit>)
    requires Here(s, i, a + b)
    ensures Here(s, i, a) && Here(s, i + |a|, b)
    decreases |a|
  {
    if a == [] {
      assert a + b == b;
    } else {
      assert (a + b)[1..] == a[1..] + b;
      HereSplit(s, i + 1, a[1..], b);
    }
  }

  lemma {:induction false} HereIsSlice(s: seq<Unit>, i: nat, t: seq<Unit>)
    requires i + |t| <= |s|
    ensures Here(s, i, t) <==> s[i..i + |t|] == t
    decreases |t|
  {
    if t != [] {
      HereIsSlice(s, i + 1, t[1..]);
      assert s[i..i + |t|] == [s[i]] + s[i + 1..i + |t|];
      assert t == [t[0]] + t[1..];
    }
  }

  lemma {:induction false} SkipsBlank(s: seq<Unit>, i: nat, ws: seq<Unit>)
    requires Here(s, i, ws) && Blank(ws)
    ensures WsEnd(s, i) == WsEnd(s, i + |ws|)
    decreases |ws|
  {
    if ws != [] {
      SkipsBlank(s, i + 1, ws[1..]);
    }
  }

  lemma {:induction false} SkipsString(s: seq<Unit>, i: nat, items: seq<StringItem>)
    requires Here(s, i, RenderItems(items) + [QUOTE]) && WfString(items)
    ensures StringEnd(s, i) == Some(i + |RenderItems(items)| + 1)
    decreases |items|
  {
    if items == [] {
    } else {
      var t, rest := RenderItem(items[0]), RenderItems(items[1..]) + [QUOTE];
      assert RenderItems(items) + [QUOTE] == t + rest;
      HereSplit(s, i, t, rest);
      SkipsItem(s, i, items[0]);
      SkipsString(s, i + |t|, items[1..]);
    }
  }

  lemma SkipsItem(s: seq<Unit>, i: nat, item: StringItem)
    requires Here(s, i, RenderItem(item)) && WfItem(item)
    ensures StringEnd(s, i) == StringEnd(s, i + |RenderItem(item)|)
  {
    var t := RenderItem(item);
    if !item.Plain? { assert s[i + 1] == t[1]; }
    if item.Hex? {
      assert t[2..] == item.digits;
      HereSplit(s, i, t[..2], item.digits);
      SkipsPlain(s, i + 2, item.digits);
    }
  }

  lemma {:induction false} SkipsPlain(s: seq<Unit>, i: nat, t: seq<Unit>)
    requires Here(s, i, t) && forall k :: 0 <= k < |t| ==> IsHex(t[k])
    ensures StringEnd(s, i) == StringEnd(s, i + |t|)
    decreases |t|
  {
    if t != [] {
      assert IsHex(t[0]);
      SkipsPlain(s, i + 1, t[1..]);
    }
  }

  lemma SkipsQuoted(s: seq<Unit>, i: nat, items: seq<StringItem>)
    requires Here(s, i, RenderString(items)) && WfString(items)
    ensures IsAt(s, i, QUOTE) && StringEnd(s, i + 1) == Some(i + |RenderString(items)|)
  {
    assert RenderString(items) == [QUOTE] + (RenderItems(items) + [QUOTE]);
    HereSplit(s, i, [QUOTE], RenderItems(items) + [QUOTE]);
    SkipsString(s, i + 1, items);
  }

  /** One item is decoded to what it stands for. */
  lemma DecodesItem(item: StringItem, rest: seq<Unit>)
    requires WfItem(item)
    ensures DecodeBody(RenderItem(item) + rest) == Cons(Meaning(item), DecodeBody(rest))
  {
    var t := RenderItem(item);
    assert (t + rest)[|t|..] == rest;
    if item.Hex? {
      assert forall k :: 2 <= k < 6 ==> (t + rest)[k] == item.digits[k - 2];
    }
  }

  lemma {:induction false} DecodesWhatIsWritten(items: seq<StringItem>)
    requires WfString(items)
    ensures DecodeBody(RenderItems(items)) == Some(Decoded(items))
  {
    if items != [] {
      hide DecodeBody, Meaning, RenderItem, WfItem;
      assert WfItem(items[0]);
      DecodesWhatIsWritten(items[1..]);
      DecodesItem(items[0], RenderItems(items[1..]));
    }
  }

  /** Text with neither quotes nor brackets passes the bracket counter unseen. */
  predicate Flat(t: seq<Unit>) {
    forall i :: 0 <= i < |t| ==> t[i] != QUOTE && !IsOpen(t[i]) && !IsClose(t[i])
  }

  lemma {:induction false} PassesFlat(s: seq<Unit>, i: nat, t: seq<Unit>, depth: int)
    requires Here(s, i, t) && Flat(t)
    ensures BracketEnd(s, i, depth) == BracketEnd(s, i + |t|, depth)
    decreases |t|
  {
    if t != [] {
      PassesFlat(s, i + 1, t[1..], depth);
    }
  }

  predicate InNumber(c: Unit) {
    IsDigit(c) || c == 0x2D || c == 0x2B || c == 0x2E || c == 0x65 || c == 0x45
  }

  predicate AllInNumber(t: seq<Unit>) {
    forall i :: 0 <= i < |t| ==> InNumber(t[i])
  }

  lemma NumberIsScalar(n: Number)
    requires WfNumber(n)
    ensures RenderNumber(n) != [] && AllInNumber(RenderNumber(n))
  {
    var a: seq<Unit> := if n.minus then [0x2D] else [];
    var b: seq<Unit> := if n.frac.Some? then [0x2E] + n.frac.value else [];
    assert AllInNumber(a + n.whole) && AllInNumber(b);
    assert AllInNumber(a + n.whole + b);
    if n.exp.Some? {
      var e := n.exp.value;
      var c: seq<Unit> := [e.letter] + (if e.sign.Some? then [e.sign.value] else []);
      assert AllInNumber(c) && AllInNumber(e.digits);
      assert AllInNumber(c + e.digits);
      assert RenderNumber(n) == a + n.whole + b + (c + e.digits);
    } else {
      assert RenderNumber(n) == a + n.whole + b;
    }
  }

  predicate IsScalar(v: Value) {
    v.True? || v.False? || v.Null? || v.Numeric?
  }

  lemma ScalarText(v: Value)
    requires IsScalar(v) && Wf(v)
    ensures Render(v) != [] && Flat(Render(v))
    ensures forall i :: 0 <= i < |Render(v)| ==> !EndsScalar(Render(v)[i])
  {
    if v.Numeric? { NumberIsScalar(v.number); }
  }

  /** Inside brackets, a whole value is passed at one depth. */
  lemma {:induction false} PassesValue(s: seq<Unit>, i: nat, v: Value, depth: int)
    requires Wf(v) && Here(s, i, Render(v)) && depth >= 1
    ensures BracketEnd(s, i, depth) == BracketEnd(s, i + |Render(v)|, depth)
    decreases v, 1
  {
    if IsScalar(v) {
      ScalarText(v);
      PassesFlat(s, i, Render(v), depth);
    } else if v.Text? {
      SkipsQuoted(s, i, v.items);
    } else {
      ReachesClose(s, i, v, depth);
    }
  }

  /** Flat text in front of `rest` is passed, and `rest` is next. */
  lemma PassesFlatFirst(s: seq<Unit>, i: nat, flat: seq<Unit>, rest: seq<Unit>, depth: int)
    requires Here(s, i, flat + rest) && Flat(flat)
    ensures BracketEnd(s, i, depth) == BracketEnd(s, i + |flat|, depth) && Here(s, i + |flat|, rest)
  {
    HereSplit(s, i, flat, rest);
    PassesFlat(s, i, flat, depth);
  }

  /** A bracketed text: its parts, and the count one deeper at its body. */
  lemma EntersBracket(s: seq<Unit>, i: nat, open: Unit, gap: seq<Unit>, text: seq<Unit>, close: Unit, depth: int)
    requires Here(s, i, [open] + (gap + (text + [close]))) && Blank(gap) && IsOpen(open)
    ensures var j := i + 1 + |gap|;
            && IsAt(s, i, open) && Here(s, j, text) && IsAt(s, j + |text|, close)
            && BracketEnd(s, i, depth) == BracketEnd(s, j, depth + 1)
  {
    HereSplit(s, i, [open], gap + (text + [close]));
    PassesFlatFirst(s, i + 1, gap, text + [close], depth + 1);
    HereSplit(s, i + 1 + |gap|, text, [close]);
  }

  /** An array or object leads from its opening bracket to its closing one. */
  lemma {:induction false} ReachesClose(s: seq<Unit>, i: nat, v: Value, depth: int)
    requires Wf(v) && (v.Array? || v.Object?) && Here(s, i, Render(v)) && depth >= 0
    ensures i < |s| && IsOpen(s[i])
    ensures var last := i + |Render(v)| - 1;
            last < |s| && IsClose(s[last]) && BracketEnd(s, i, depth) == BracketEnd(s, last, depth + 1)
    decreases v, 0
  {
    hide Here, BracketEnd;
    if v.Array? {
      EntersBracket(s, i, OPEN_BRACKET, v.gap, RenderElements(v.elements), CLOSE_BRACKET, depth);
      PassesElements(s, i + 1 + |v.gap|, v.elements, depth + 1);
    } else {
      EntersBracket(s, i, OPEN_BRACE, v.gap, RenderMembers(v.members), CLOSE_BRACE, depth);
      PassesMembers(s, i + 1 + |v.gap|, v.members, depth + 1);
    }
  }

  lemma {:induction false} PassesElements(s: seq<Unit>, i: nat, es: seq<Element>, depth: int)
    requires AllElements(es) && Here(s, i, RenderElements(es)) && depth >= 1
    ensures BracketEnd(s, i, depth) == BracketEnd(s, i + |RenderElements(es)|, depth)
    decreases es
  {
    hide Here, BracketEnd, RenderElement, WfElement;
    if es != [] {
      var tail := if |es| == 1 then [] else [COMMA] + RenderElements(es[1..]);
      HereSplit(s, i, RenderElement(es[0]), tail);
      PassesElement(s, i, es[0], depth);
      var j := i + |RenderElement(es[0])|;
      if |es| > 1 {
        PassesFlatFirst(s, j, [COMMA], RenderElements(es[1..]), depth);
        PassesElements(s, j + 1, es[1..], depth);
      }
    }
  }

  lemma {:induction false} PassesElement(s: seq<Unit>, i: nat, e: Element, depth: int)
    requires WfElement(e) && Here(s, i, RenderElement(e)) && depth >= 1
    ensures BracketEnd(s, i, depth) == BracketEnd(s, i + |RenderElement(e)|, depth)
    decreases e
  {
    PassesFlatFirst(s, i, e.before, Render(e.value) + e.after, depth);
    PassesValueFirst(s, i + |e.before|, e.value, e.after, depth);
  }

  lemma {:induction false} PassesValueFirst(s: seq<Unit>, i: nat, v: Value, after: seq<Unit>, depth: int)
    requires Wf(v) && Blank(after) && Here(s, i, Render(v) + after) && depth >= 1
    ensures BracketEnd(s, i, depth) == BracketEnd(s, i + |Render(v) + after|, depth)
    decreases v, 2
  {
    HereSplit(s, i, Render(v), after);
    PassesValue(s, i, v, depth);
    PassesFlat(s, i + |Render(v)|, after, depth);
  }

  function RestOfMember(m: Member): seq<Unit> {
    m.beforeValue + (Render(m.value) + m.after)
  }

  lemma {:induction false} PassesMember(s: seq<Unit>, i: nat, m: Member, depth: int)
    requires WfMember(m) && Here(s, i, RenderMember(m)) && depth >= 1
    ensures BracketEnd(s, i, depth) == BracketEnd(s, i + |RenderMember(m)|, depth)
    decreases m
  {
    var colon := PassesName(s, i, m, depth);
    PassesFlatFirst(s, colon, [COLON], RestOfMember(m), depth);
    PassesFlatFirst(s, colon + 1, m.beforeValue, Render(m.value) + m.after, depth);
    PassesValueFirst(s, colon + 1 + |m.beforeValue|, m.value, m.after, depth);
  }

  lemma PassesName(s: seq<Unit>, i: nat, m: Member, depth: int) returns (colon: nat)
    requires WfMember(m) && Here(s, i, RenderMember(m)) && depth >= 1
    ensures colon == i + |m.before| + |RenderString(m.name)| + |m.afterName|
    ensures Here(s, colon, [COLON] + RestOfMember(m))
    ensures BracketEnd(s, i, depth) == BracketEnd(s, colon, depth)
  {
    var rest := m.afterName + ([COLON] + RestOfMember(m));
    PassesFlatFirst(s, i, m.before, RenderString(m.name) + rest, depth);
    var name := i + |m.before|;
    HereSplit(s, name, RenderString(m.name), rest);
    SkipsQuoted(s, name, m.name);
    PassesFlatFirst(s, name + |RenderString(m.name)|, m.afterName, [COLON] + RestOfMember(m), depth);
    colon := name + |RenderString(m.name)| + |m.afterName|;
  }

  lemma {:induction false} PassesMembers(s: seq<Unit>, i: nat, ms: seq<Member>, depth: int)
    requires AllMembers(ms) && Here(s, i, RenderMembers(ms)) && depth >= 1
    ensures BracketEnd(s, i, depth) == BracketEnd(s, i + |RenderMembers(ms)|, depth)
    decreases ms
  {
    hide Here, BracketEnd, Render, RenderMember, WfMember;
    if ms != [] {
      var tail := if |ms| == 1 then [] else [COMMA] + RenderMembers(ms[1..]);
      HereSplit(s, i, RenderMember(ms[0]), tail);
      PassesMember(s, i, ms[0], depth);
      var j := i + |RenderMember(ms[0])|;
      if |ms| > 1 {
        PassesFlatFirst(s, j, [COMMA], RenderMembers(ms[1..]), depth);
        PassesMembers(s, j + 1, ms[1..], depth);
      }
    }
  }

  lemma {:induction false} ScalarStops(s: seq<Unit>, i: nat, t: seq<Unit>)
    requires Here(s, i, t) && (forall k :: 0 <= k < |t| ==> !EndsScalar(t[k]))
    requires i + |t| < |s| && EndsScalar(s[i + |t|])
    ensures ScalarEnd(s, i) == i + |t|
    decreases |t|
  {
    if t != [] {
      ScalarStops(s, i + 1, t[1..]);
    }
  }

  /** A well-formed value that something ends is scanned to its end and no further. */
  lemma {:induction false} ScansValue(s: seq<Unit>, i: nat, v: Value)
    requires Wf(v) && Here(s, i, Render(v))
    requires i + |Render(v)| < |s| && EndsScalar(s[i + |Render(v)|])
    ensures i < |s| && !IsWs(s[i]) && ValueEnd(s, i) == Some(i + |Render(v)|)
  {
    if IsScalar(v) {
      ScalarText(v);
      assert !EndsScalar(Render(v)[0]);
      ScalarStops(s, i, Render(v));
    } else if v.Text? {
      SkipsQuoted(s, i, v.items);
    } else {
      ReachesClose(s, i, v, 0);
    }
  }

  /** The value text of the last member whose decoded name is `key`. */
  function LastNamed(ms: seq<Member>, key: seq<Unit>, found: Found): Found
    requires AllMembers(ms)
  {
    if ms == [] then found
    else LastNamed(ms[1..], key, if Decoded(ms[0].name) == key then Some(Render(ms[0].value)) else found)
  }

  lemma SkipsBlankFirst(s: seq<Unit>, i: nat, ws: seq<Unit>, rest: seq<Unit>)
    requires Here(s, i, ws + rest) && Blank(ws) && rest != [] && !IsWs(rest[0])
    ensures WsEnd(s, i) == i + |ws| && Here(s, i + |ws|, rest)
  {
    HereSplit(s, i, ws, rest);
    SkipsBlank(s, i, ws);
  }

  lemma MemberText(m: Member)
    ensures RenderMember(m) == m.before + (RenderString(m.name) + (m.afterName + ([COLON] + RestOfMember(m))))
  {
  }

  /** The name and the colon. */
  lemma ReadsName(s: seq<Unit>, i: nat, m: Member) returns (name: nat, gap: nat)
    requires i <= |s| && WfMember(m) && Here(s, i, RenderMember(m))
    ensures name == WsEnd(s, i) && IsAt(s, name, QUOTE) && StringEnd(s, name + 1) == Some(gap)
    ensures IsAt(s, WsEnd(s, gap), COLON) && Here(s, WsEnd(s, gap) + 1, RestOfMember(m))
    ensures DecodeString(s[name..gap]) == Some(Decoded(m.name))
    ensures WsEnd(s, gap) + 1 + |RestOfMember(m)| == i + |RenderMember(m)|
  {
    hide Here, Render, Wf, RenderItems, StringEnd, DecodeString, Decoded, WsEnd, RestOfMember;
    var rest := m.afterName + ([COLON] + RestOfMember(m));
    MemberText(m);
    SkipsBlankFirst(s, i, m.before, RenderString(m.name) + rest);
    name := i + |m.before|;
    HereSplit(s, name, RenderString(m.name), rest);
    SkipsQuoted(s, name, m.name);
    DecodesName(s, name, m.name);
    gap := name + |RenderString(m.name)|;
    SkipsBlankFirst(s, gap, m.afterName, [COLON] + RestOfMember(m));
    HereSplit(s, gap + |m.afterName|, [COLON], RestOfMember(m));
  }

  lemma ReadsValue(s: seq<Unit>, i: nat, v: Value, after: seq<Unit>) returns (end: nat)
    requires Wf(v) && Blank(after) && Here(s, i, Render(v) + after)
    requires var j := i + |Render(v) + after|; j < |s| && (s[j] == COMMA || s[j] == CLOSE_BRACE)
    ensures i < |s| && !IsWs(s[i]) && ValueEnd(s, i) == Some(end) && end <= |s| && s[i..end] == Render(v)
    ensures WsEnd(s, end) == i + |Render(v) + after|
  {
    HereSplit(s, i, Render(v), after);
    end := i + |Render(v)|;
    SkipsBlank(s, end, after);
    assert after != [] ==> IsWs(after[0]);
    assert EndsScalar(s[end]);
    ScansValue(s, i, v);
    HereIsSlice(s, i, Render(v));
  }

  lemma ReadsRest(s: seq<Unit>, i: nat, m: Member) returns (start: nat, end: nat)
    requires WfMember(m) && Here(s, i, RestOfMember(m))
    requires var j := i + |RestOfMember(m)|; j < |s| && (s[j] == COMMA || s[j] == CLOSE_BRACE)
    ensures start == WsEnd(s, i) && ValueEnd(s, start) == Some(end)
    ensures start <= end <= |s| && s[start..end] == Render(m.value)
    ensures WsEnd(s, end) == i + |RestOfMember(m)|
  {
    HereSplit(s, i, m.beforeValue, Render(m.value) + m.after);
    SkipsBlank(s, i, m.beforeValue);
    start := i + |m.beforeValue|;
    end := ReadsValue(s, start, m.value, m.after);
  }

  lemma ReadsMember(s: seq<Unit>, i: nat, m: Member) returns (start: nat, end: nat)
    requires WfMember(m) && Here(s, i, RenderMember(m))
    requires var j := i + |RenderMember(m)|; j < |s| && (s[j] == COMMA || s[j] == CLOSE_BRACE)
    ensures MemberAt(s, WsEnd(s, i)) == Success((start, end, Decoded(m.name)))
    ensures start <= end <= |s| && s[start..end] == Render(m.value)
    ensures WsEnd(s, end) == i + |RenderMember(m)|
  {
    hide Here, Render, RenderMember, RestOfMember, Wf, WfMember, ValueEnd, WsEnd, StringEnd, DecodeString, Decoded;
    MemberNameWf(m);
    var name, gap := ReadsName(s, i, m);
    start, end := ReadsRest(s, WsEnd(s, gap) + 1, m);
  }

  lemma MemberNameWf(m: Member)
    requires WfMember(m)
    ensures WfString(m.name)
  {
  }

  lemma DecodesName(s: seq<Unit>, i: nat, items: seq<StringItem>)
    requires WfString(items) && Here(s, i, RenderString(items)) && i + |RenderString(items)| <= |s|
    ensures DecodeString(s[i..i + |RenderString(items)|]) == Some(Decoded(items))
  {
    var raw := RenderString(items);
    HereIsSlice(s, i, raw);
    assert raw[1..|raw| - 1] == RenderItems(items);
    DecodesWhatIsWritten(items);
  }

  /** What follows a member in the text of its object. */
  function AfterFirst(ms: seq<Member>): seq<Unit>
    requires ms != []
  {
    if |ms| == 1 then [CLOSE_BRACE] else [COMMA] + (RenderMembers(ms[1..]) + [CLOSE_BRACE])
  }

  lemma MembersSplit(s: seq<Unit>, i: nat, ms: seq<Member>)
    requires ms != [] && Here(s, i, RenderMembers(ms) + [CLOSE_BRACE])
    ensures var j := i + |RenderMember(ms[0])|;
            && Here(s, i, RenderMember(ms[0])) && IsAt(s, j, if |ms| == 1 then CLOSE_BRACE else COMMA)
            && (|ms| > 1 ==> Here(s, j + 1, RenderMembers(ms[1..]) + [CLOSE_BRACE]))
  {
    hide Render, RenderMember;
    assert RenderMembers(ms) + [CLOSE_BRACE] == RenderMember(ms[0]) + AfterFirst(ms);
    HereSplit(s, i, RenderMember(ms[0]), AfterFirst(ms));
    if |ms| > 1 {
      HereSplit(s, i + |RenderMember(ms[0])|, [COMMA], RenderMembers(ms[1..]) + [CLOSE_BRACE]);
    }
  }

  lemma {:induction false} ReadsMembers(s: seq<Unit>, key: seq<Unit>, i: nat, ms: seq<Member>, found: Found)
    requires ms != [] && AllMembers(ms)
    requires Here(s, i, RenderMembers(ms) + [CLOSE_BRACE])
    ensures MembersFrom(s, key, WsEnd(s, i), found) == Success(LastNamed(ms, key, found))
    decreases |ms|
  {
    hide Here, Render, RenderMember, WfMember, MemberAt, WsEnd, Decoded;
    MembersSplit(s, i, ms);
    MemberNameWf(ms[0]);
    var start, end := ReadsMember(s, i, ms[0]);
    var found' := if Decoded(ms[0].name) == key then Some(s[start..end]) else found;
    if |ms| > 1 {
      ReadsMembers(s, key, i + |RenderMember(ms[0])| + 1, ms[1..], found');
    }
  }

  /**
   * On every well-formed object text, whatever stands before it in white space and behind it,
   * the scanner returns the source text of the last member with the wanted name, or nothing
   * when there is none.
   */
  lemma {:induction false} ExtractionAgreesWithGrammar(
      lead: seq<Unit>, body: Value, rest: seq<Unit>, key: seq<Unit>)
    requires Blank(lead) && body.Object? && Wf(body)
    ensures Extracted(lead + Render(body) + rest, key) == Success(LastNamed(body.members, key, None))
  {
    var s := lead + Render(body) + rest;
    var gap, ms := body.gap, body.members;
    var text := RenderMembers(ms) + [CLOSE_BRACE];
    assert s[0..|lead + Render(body)|] == lead + Render(body);
    HereIsSlice(s, 0, lead + Render(body));
    SkipsBlankFirst(s, 0, lead, Render(body));
    HereSplit(s, |lead|, [OPEN_BRACE], gap + text);
    HereSplit(s, |lead| + 1, gap, text);
    SkipsBlank(s, |lead| + 1, gap);
    var i := |lead| + 1 + |gap|;
    if ms != [] {
      ReadsMembers(s, key, i, ms, None);
      assert MemberAt(s, WsEnd(s, i)).Success?;
    }
  }

  /** Member `i` is the last one of that decoded name. */
  predicate IsLastNamed(ms: seq<Member>, key: seq<Unit>, i: nat)
    requires AllMembers(ms)
  {
    && i < |ms| && Decoded(ms[i].name) == key
    && forall j :: i < j < |ms| ==> Decoded(ms[j].name) != key
  }

  predicate NoneNamed(ms: seq<Member>, key: seq<Unit>)
    requires AllMembers(ms)
  {
    forall j :: 0 <= j < |ms| ==> Decoded(ms[j].name) != key
  }

  lemma {:induction false} LastNamedIsLast(ms: seq<Member>, key: seq<Unit>, found: Found)
    requires AllMembers(ms)
    ensures forall i: nat :: IsLastNamed(ms, key, i) ==> LastNamed(ms, key, found) == Some(Render(ms[i].value))
    ensures NoneNamed(ms, key) ==> LastNamed(ms, key, found) == found
    decreases |ms|
  {
    if ms != [] {
      var rest := ms[1..];
      var found' := if Decoded(ms[0].name) == key then Some(Render(ms[0].value)) else found;
      assert forall j :: 0 <= j < |rest| ==> rest[j] == ms[j + 1];
      LastNamedIsLast(rest, key, found');
      forall i: nat | IsLastNamed(ms, key, i) ensures LastNamed(ms, key, found) == Some(Render(ms[i].value)) {
        if i > 0 { assert IsLastNamed(rest, key, i - 1); }
        else { assert NoneNamed(rest, key); }
      }
    }
  }

  /**
   * So on every well-formed object text the scanner returns the source text of the last member of
   * the wanted name, and nothing exactly when no member has it.
   */
  lemma ExtractsLastMember(lead: seq<Unit>, body: Value, rest: seq<Unit>, key: seq<Unit>, i: nat)
    requires Blank(lead) && body.Object? && Wf(body)
    ensures IsLastNamed(body.members, key, i) ==>
              Extracted(lead + Render(body) + rest, key) == Success(Some(Render(body.members[i].value)))
    ensures NoneNamed(body.members, key) ==> Extracted(lead + Render(body) + rest, key) == Success(None)
  {
    hide Extracted, Render, Decoded;
    ExtractionAgreesWithGrammar(lead, body, rest, key);
    LastNamedIsLast(body.members, key, None);
  }
}
