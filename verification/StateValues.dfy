/**
 * Deployment values as the comparator sees them: JSON with secret envelopes, and the same with
 * every envelope replaced by its decrypted value or by a mark that it could not be verified.
 */
module StateValues {
  import opened Wrappers

  datatype Json =
    | JNull
    | JBool(b: bool)
    | JNum(n: int)
    | JStr(s: string)
    | JArr(items: seq<Json>)
    | JObj(members: map<string, Json>)

  /** A resolved value. `Undef` is JavaScript's undefined, which JSON text never holds. */
  datatype Value =
    | Undef
    | Null
    | Bool(b: bool)
    | Num(n: int)
    | Str(s: string)
    | Arr(items: seq<Value>)
    | Obj(members: map<string, Value>)
    | Resolved(value: Value)
    | Unverifiable

  const SECRET_SIGNATURE_KEY: string := "4dabf18193072939515e22adb298388d"
  const SECRET_SIGNATURE: string := "1b47061264138c4ac30d75fd1eb44270"

  predicate IsEnvelope(v: Json) {
    && v.JObj? && SECRET_SIGNATURE_KEY in v.members
    && v.members[SECRET_SIGNATURE_KEY] == JStr(SECRET_SIGNATURE)
  }

  function StringMember(v: Json, key: string): Option<string>
    requires v.JObj?
  {
    if key in v.members && v.members[key].JStr? then Some(v.members[key].s) else None
  }

  /** The plaintext an envelope carries or decrypts to, if it can be had. */
  function PlaintextOf(v: Json, decrypted: map<string, string>): Option<string>
    requires v.JObj?
  {
    var plain, cipher := StringMember(v, "plaintext"), StringMember(v, "ciphertext");
    if plain.Some? then plain
    else if cipher.Some? && cipher.value in decrypted then Some(decrypted[cipher.value])
    else None
  }

  /** Reading a plaintext as JSON, or as the plain string when it is none. */
  type Reader = string -> Json

  /**
   * Replace every envelope. A plaintext may itself hold envelopes, and a ciphertext may even
   * decrypt to one that holds it again; `depth` is how many plaintexts deep the call stack goes
   * before it overflows.
   */
  function Resolve(v: Json, decrypted: map<string, string>, read: Reader, depth: nat): Option<Value>
    decreases depth, v
  {
    match v
    case JNull => Some(Null)
    case JBool(b) => Some(Bool(b))
    case JNum(n) => Some(Num(n))
    case JStr(s) => Some(Str(s))
    case JArr(items) =>
      if forall i :: 0 <= i < |items| ==> Resolve(items[i], decrypted, read, depth).Some?
      then Some(Arr(seq(|items|, i requires 0 <= i < |items| => Resolve(items[i], decrypted, read, depth).value)))
      else None
    case JObj(members) =>
      if IsEnvelope(v) then
        var plaintext := PlaintextOf(v, decrypted);
        if plaintext.None? then Some(Unverifiable)
        else if depth == 0 then None
        else
          var inner := Resolve(read(plaintext.value), decrypted, read, depth - 1);
          if inner.None? then None else Some(Resolved(inner.value))
      else if forall k <- members :: Resolve(members[k], decrypted, read, depth).Some?
      then Some(Obj(map k <- members :: Resolve(members[k], decrypted, read, depth).value))
      else None
  }

  /** What an envelope holds: its own plaintext if it has one, else what its ciphertext decrypts to, if known. */
  lemma EnvelopeHolds(v: Json, decrypted: map<string, string>, read: Reader, depth: nat)
    requires IsEnvelope(v)
    ensures "plaintext" in v.members && v.members["plaintext"].JStr? ==>
      PlaintextOf(v, decrypted) == Some(v.members["plaintext"].s)
    ensures !("plaintext" in v.members && v.members["plaintext"].JStr?) ==>
      if "ciphertext" in v.members && v.members["ciphertext"].JStr? && v.members["ciphertext"].s in decrypted
      then PlaintextOf(v, decrypted) == Some(decrypted[v.members["ciphertext"].s])
      else Resolve(v, decrypted, read, depth) == Some(Unverifiable)
    ensures PlaintextOf(v, decrypted).Some? && Resolve(v, decrypted, read, depth).Some? ==>
      depth > 0 && Resolve(read(PlaintextOf(v, decrypted).value), decrypted, read, depth - 1).Some?
      && Resolve(v, decrypted, read, depth).value
         == Resolved(Resolve(read(PlaintextOf(v, decrypted).value), decrypted, read, depth - 1).value)
  {
  }

  /** More stack never changes an answer. */
  lemma {:induction false} DeeperIsSame(v: Json, decrypted: map<string, string>, read: Reader, depth: nat, more: nat)
    requires Resolve(v, decrypted, read, depth).Some? && depth <= more
    ensures Resolve(v, decrypted, read, more) == Resolve(v, decrypted, read, depth)
    decreases depth, v
  {
    match v {
      case JArr(items) =>
        forall i | 0 <= i < |items|
          ensures Resolve(items[i], decrypted, read, more) == Resolve(items[i], decrypted, read, depth)
        {
          DeeperIsSame(items[i], decrypted, read, depth, more);
        }
        assert Resolve(v, decrypted, read, more).value.items == Resolve(v, decrypted, read, depth).value.items;
      case JObj(members) =>
        if IsEnvelope(v) {
          var plaintext := PlaintextOf(v, decrypted);
          if plaintext.Some? { DeeperIsSame(read(plaintext.value), decrypted, read, depth - 1, more - 1); }
        } else {
          forall k | k in members
            ensures Resolve(members[k], decrypted, read, more) == Resolve(members[k], decrypted, read, depth)
          {
            DeeperIsSame(members[k], decrypted, read, depth, more);
          }
          assert Resolve(v, decrypted, read, more).value.members == Resolve(v, decrypted, read, depth).value.members;
        }
      case _ =>
    }
  }

  // --------------------------------------------------------------------- when resolving ends

  /** The plaintexts had from the outermost envelopes of a value. */
  function Inner(v: Json, decrypted: map<string, string>): set<string> {
    match v
    case JArr(items) => set i, s | 0 <= i < |items| && s in Inner(items[i], decrypted) :: s
    case JObj(members) =>
      if IsEnvelope(v) then
        if PlaintextOf(v, decrypted).Some? then {PlaintextOf(v, decrypted).value} else {}
      else set k, s | k in members && s in Inner(members[k], decrypted) :: s
    case _ => {}
  }

  /**
   * A text written out inside the JSON text that holds it is the shorter of the two, so what is
   * had from the envelopes of a text is shorter than it unless it was decrypted.
   */
  ghost predicate Shrinks(read: Reader, decrypted: map<string, string>) {
    forall s: string, t: string :: t in Inner(read(s), decrypted) && t !in decrypted.Values ==> |t| < |s|
  }

  /** Plaintexts of which each was had from the one before, the first from `v` itself. */
  ghost predicate IsChain(v: Json, decrypted: map<string, string>, read: Reader, c: seq<string>) {
    forall i: nat :: i < |c| ==> c[i] in Inner(Holder(v, read, c, i), decrypted)
  }

  /** The value whose envelopes the `i`-th plaintext of a chain was had from. */
  function Holder(v: Json, read: Reader, c: seq<string>, i: nat): Json
    requires i <= |c|
  {
    if i == 0 then v else read(c[i - 1])
  }

  predicate Repeats(c: seq<string>) {
    exists i, j :: 0 <= i < j < |c| && c[i] == c[j]
  }

  /** Some plaintext is met again while resolving itself: a cycle of envelopes leads out of `v`. */
  ghost predicate HoldsCycle(v: Json, decrypted: map<string, string>, read: Reader) {
    exists c: seq<string> :: IsChain(v, decrypted, read, c) && Repeats(c)
  }

  /** What resolves has resolved what its envelopes hold. */
  lemma {:induction false} InnerResolves(v: Json, decrypted: map<string, string>, read: Reader, depth: nat, s: string)
    requires Resolve(v, decrypted, read, depth).Some? && s in Inner(v, decrypted)
    ensures depth > 0 && Resolve(read(s), decrypted, read, depth - 1).Some?
    decreases v
  {
    match v {
      case JArr(items) =>
        var i :| 0 <= i < |items| && s in Inner(items[i], decrypted);
        InnerResolves(items[i], decrypted, read, depth, s);
      case JObj(members) =>
        if !IsEnvelope(v) {
          var k :| k in members && s in Inner(members[k], decrypted);
          InnerResolves(members[k], decrypted, read, depth, s);
        }
      case _ =>
    }
  }

  lemma PrefixIsChain(v: Json, decrypted: map<string, string>, read: Reader, c: seq<string>, n: nat)
    requires IsChain(v, decrypted, read, c) && n <= |c|
    ensures IsChain(v, decrypted, read, c[..n])
  {
    hide Inner;
    forall i: nat | i < n ensures c[..n][i] in Inner(Holder(v, read, c[..n], i), decrypted) {
      assert c[i] in Inner(Holder(v, read, c, i), decrypted);
    }
  }

  lemma MiddleIsChain(v: Json, decrypted: map<string, string>, read: Reader, c: seq<string>, i: nat, j: nat)
    requires IsChain(v, decrypted, read, c) && i < j < |c|
    ensures IsChain(read(c[i]), decrypted, read, c[i + 1..j + 1])
  {
    hide Inner;
    var d := c[i + 1..j + 1];
    forall k: nat | k < |d| ensures d[k] in Inner(Holder(read(c[i]), read, d, k), decrypted) {
      assert c[i + 1 + k] in Inner(Holder(v, read, c, i + 1 + k), decrypted);
    }
  }

  /** What resolves reaches down every chain, one call deeper for each plaintext. */
  lemma {:induction false} ChainResolves(
      v: Json, decrypted: map<string, string>, read: Reader, depth: nat, c: seq<string>)
    requires Resolve(v, decrypted, read, depth).Some? && IsChain(v, decrypted, read, c) && c != []
    ensures |c| <= depth && Resolve(read(c[|c| - 1]), decrypted, read, depth - |c|).Some?
    decreases |c|
  {
    hide Resolve, Inner;
    var init, s := c[..|c| - 1], c[|c| - 1];
    assert s in Inner(Holder(v, read, c, |c| - 1), decrypted);
    if init == [] {
      InnerResolves(v, decrypted, read, depth, s);
    } else {
      PrefixIsChain(v, decrypted, read, c, |c| - 1);
      ChainResolves(v, decrypted, read, depth, init);
      InnerResolves(read(init[|init| - 1]), decrypted, read, depth - |init|, s);
    }
  }

  /** A plaintext that leads back to itself never resolves, whatever the stack. */
  lemma {:induction false} CycleNeverResolves(
      s: string, decrypted: map<string, string>, read: Reader, depth: nat, c: seq<string>)
    requires IsChain(read(s), decrypted, read, c) && c != [] && c[|c| - 1] == s
    ensures Resolve(read(s), decrypted, read, depth) == None
    decreases depth
  {
    hide Resolve, IsChain;
    if Resolve(read(s), decrypted, read, depth).Some? {
      ChainResolves(read(s), decrypted, read, depth, c);
      CycleNeverResolves(s, decrypted, read, depth - |c|, c);
      assert false;
    }
  }

  lemma CycleOverflows(v: Json, decrypted: map<string, string>, read: Reader, depth: nat)
    requires HoldsCycle(v, decrypted, read)
    ensures Resolve(v, decrypted, read, depth) == None
  {
    hide Resolve, Inner, IsChain;
    var c :| IsChain(v, decrypted, read, c) && Repeats(c);
    var i, j :| 0 <= i < j < |c| && c[i] == c[j];
    if Resolve(v, decrypted, read, depth).Some? {
      var start, cycle := c[..i + 1], c[i + 1..j + 1];
      PrefixIsChain(v, decrypted, read, c, i + 1);
      MiddleIsChain(v, decrypted, read, c, i, j);
      ChainResolves(v, decrypted, read, depth, start);
      CycleNeverResolves(c[i], decrypted, read, depth - |start|, cycle);
    }
  }

  /** A value resolves one call deeper than all that its envelopes hold. */
  lemma {:induction false} ResolvesWithInner(v: Json, decrypted: map<string, string>, read: Reader, depth: nat)
    requires forall s <- Inner(v, decrypted) :: Resolve(read(s), decrypted, read, depth).Some?
    ensures Resolve(v, decrypted, read, depth + 1).Some?
    decreases v
  {
    match v {
      case JArr(items) =>
        forall i | 0 <= i < |items| ensures Resolve(items[i], decrypted, read, depth + 1).Some? {
          assert forall s <- Inner(items[i], decrypted) :: s in Inner(v, decrypted);
          ResolvesWithInner(items[i], decrypted, read, depth);
        }
      case JObj(members) =>
        if !IsEnvelope(v) {
          forall k | k in members ensures Resolve(members[k], decrypted, read, depth + 1).Some? {
            assert forall s <- Inner(members[k], decrypted) :: s in Inner(v, decrypted);
            ResolvesWithInner(members[k], decrypted, read, depth);
          }
        }
      case _ =>
    }
  }

  function Met(c: seq<string>): set<string> {
    set i | 0 <= i < |c| :: c[i]
  }

  function LastLength(c: seq<string>): nat {
    if c == [] then 0 else |c[|c| - 1]|
  }

  lemma LongerChain(v: Json, decrypted: map<string, string>, read: Reader, c: seq<string>, s: string)
    requires IsChain(v, decrypted, read, c) && s in Inner(Holder(v, read, c, |c|), decrypted)
    ensures IsChain(v, decrypted, read, c + [s])
    ensures s in Met(c) ==> Repeats(c + [s])
  {
    hide Inner;
    var d := c + [s];
    forall i: nat | i < |d| ensures d[i] in Inner(Holder(v, read, d, i), decrypted) {
      if i < |c| { assert c[i] in Inner(Holder(v, read, c, i), decrypted); }
    }
    if s in Met(c) {
      var i :| 0 <= i < |c| && c[i] == s;
      assert d[i] == d[|c|];
    }
  }

  lemma FewerUnmet(decrypted: map<string, string>, c: seq<string>, s: string)
    requires s !in Met(c)
    ensures decrypted.Values - Met(c + [s]) <= decrypted.Values - Met(c)
    ensures s in decrypted.Values ==> decrypted.Values - Met(c + [s]) < decrypted.Values - Met(c)
  {
    assert (c + [s])[|c|] == s;
    assert forall i :: 0 <= i < |c| ==> (c + [s])[i] == c[i];
    assert forall t :: t in Met(c) ==> t in Met(c + [s]);
    assert s in Met(c + [s]);
    if s in decrypted.Values { assert s in decrypted.Values - Met(c); }
  }

  /** Without a cycle the end of every chain resolves: new ciphertexts run out, and plaintexts between them shrink. */
  lemma {:induction false} ChainEnds(v: Json, decrypted: map<string, string>, read: Reader, c: seq<string>)
    returns (depth: nat)
    requires Shrinks(read, decrypted) && !HoldsCycle(v, decrypted, read)
    requires IsChain(v, decrypted, read, c) && c != []
    ensures Resolve(read(c[|c| - 1]), decrypted, read, depth).Some?
    decreases decrypted.Values - Met(c), LastLength(c), 1
  {
    hide Resolve, Inner, IsChain;
    var below := AllEnd(v, decrypted, read, c, Inner(read(c[|c| - 1]), decrypted));
    ResolvesWithInner(read(c[|c| - 1]), decrypted, read, below);
    depth := below + 1;
  }

  lemma {:induction false} AllEnd(
      v: Json, decrypted: map<string, string>, read: Reader, c: seq<string>, ss: set<string>)
    returns (depth: nat)
    requires Shrinks(read, decrypted) && !HoldsCycle(v, decrypted, read)
    requires IsChain(v, decrypted, read, c) && c != [] && ss <= Inner(read(c[|c| - 1]), decrypted)
    ensures forall s <- ss :: Resolve(read(s), decrypted, read, depth).Some?
    decreases decrypted.Values - Met(c), LastLength(c), 0, ss
  {
    hide Resolve, Inner, IsChain, Repeats, Met;
    depth := 0;
    if ss != {} {
      var s :| s in ss;
      LongerChain(v, decrypted, read, c, s);
      FewerUnmet(decrypted, c, s);
      var one := ChainEnds(v, decrypted, read, c + [s]);
      var rest := AllEnd(v, decrypted, read, c, ss - {s});
      depth := if one < rest then rest else one;
      DeeperIsSame(read(s), decrypted, read, one, depth);
      forall t | t in ss - {s} ensures Resolve(read(t), decrypted, read, depth).Some? {
        DeeperIsSame(read(t), decrypted, read, rest, depth);
      }
    }
  }

  lemma {:induction false} StartEnds(
      v: Json, decrypted: map<string, string>, read: Reader, ss: set<string>)
    returns (depth: nat)
    requires Shrinks(read, decrypted) && !HoldsCycle(v, decrypted, read) && ss <= Inner(v, decrypted)
    ensures forall s <- ss :: Resolve(read(s), decrypted, read, depth).Some?
    decreases ss
  {
    hide Resolve, Inner;
    depth := 0;
    if ss != {} {
      var s :| s in ss;
      assert IsChain(v, decrypted, read, [s]);
      var one := ChainEnds(v, decrypted, read, [s]);
      var rest := StartEnds(v, decrypted, read, ss - {s});
      depth := if one < rest then rest else one;
      DeeperIsSame(read(s), decrypted, read, one, depth);
      forall t | t in ss - {s} ensures Resolve(read(t), decrypted, read, depth).Some? {
        DeeperIsSame(read(t), decrypted, read, rest, depth);
      }
    }
  }

  /**
   * Resolving ends, given stack enough, exactly when no cycle of envelopes leads out of the value:
   * no plaintext is met again while resolving itself.
   */
  lemma ResolvingEndsExactly(v: Json, decrypted: map<string, string>, read: Reader)
    requires Shrinks(read, decrypted)
    ensures (exists depth: nat :: Resolve(v, decrypted, read, depth).Some?) <==> !HoldsCycle(v, decrypted, read)
  {
    hide Resolve, Inner, HoldsCycle;
    if HoldsCycle(v, decrypted, read) {
      forall depth: nat ensures Resolve(v, decrypted, read, depth).None? { CycleOverflows(v, decrypted, read, depth); }
    } else {
      var depth := StartEnds(v, decrypted, read, Inner(v, decrypted));
      ResolvesWithInner(v, decrypted, read, depth);
    }
  }

  /** So a secret that decrypts to an envelope of its own ciphertext never resolves, whatever the stack. */
  lemma SelfHoldingSecretOverflows(v: Json, decrypted: map<string, string>, read: Reader, depth: nat)
    requires IsEnvelope(v) && PlaintextOf(v, decrypted).Some? && read(PlaintextOf(v, decrypted).value) == v
    ensures Resolve(v, decrypted, read, depth) == None
  {
    var s := PlaintextOf(v, decrypted).value;
    assert IsChain(v, decrypted, read, [s, s]) && Repeats([s, s]) by { assert [s, s][0] == [s, s][1]; }
    CycleOverflows(v, decrypted, read, depth);
  }

  // --------------------------------------------------------------------- what resolving tells apart

  /**
   * Two documents that differ only in how their secrets are encrypted: same shape, and envelopes
   * in the same places whose plaintexts agree or are both unavailable.
   */
  predicate Reencrypted(
      v: Json, w: Json, dv: map<string, string>, dw: map<string, string>, read: Reader, depth: nat)
    decreases depth, v
  {
    match v
    case JArr(items) =>
      && w.JArr? && |w.items| == |items|
      && forall i :: 0 <= i < |items| ==> Reencrypted(items[i], w.items[i], dv, dw, read, depth)
    case JObj(members) =>
      if IsEnvelope(v) then
        && IsEnvelope(w)
        && var p, q := PlaintextOf(v, dv), PlaintextOf(w, dw);
        && (p.Some? <==> q.Some?)
        && (p.Some? && depth > 0 ==> Reencrypted(read(p.value), read(q.value), dv, dw, read, depth - 1))
      else
        && w.JObj? && !IsEnvelope(w) && w.members.Keys == members.Keys
        && forall k <- members :: Reencrypted(members[k], w.members[k], dv, dw, read, depth)
    case _ => v == w
  }

  lemma SameItems(items: seq<Json>, others: seq<Json>, dv: map<string, string>, dw: map<string, string>,
      read: Reader, depth: nat)
    requires |items| == |others|
    requires forall i :: 0 <= i < |items| ==> Resolve(items[i], dv, read, depth) == Resolve(others[i], dw, read, depth)
    ensures Resolve(JArr(items), dv, read, depth) == Resolve(JArr(others), dw, read, depth)
  {
    var a, b := Resolve(JArr(items), dv, read, depth), Resolve(JArr(others), dw, read, depth);
    if a.Some? && b.Some? { assert a.value.items == b.value.items; }
  }

  lemma SameMembers(m: map<string, Json>, n: map<string, Json>, dv: map<string, string>, dw: map<string, string>,
      read: Reader, depth: nat)
    requires m.Keys == n.Keys && !IsEnvelope(JObj(m)) && !IsEnvelope(JObj(n))
    requires forall k <- m :: Resolve(m[k], dv, read, depth) == Resolve(n[k], dw, read, depth)
    ensures Resolve(JObj(m), dv, read, depth) == Resolve(JObj(n), dw, read, depth)
  {
    hide IsEnvelope;
    var a, b := Resolve(JObj(m), dv, read, depth), Resolve(JObj(n), dw, read, depth);
    if a.Some? && b.Some? { assert a.value.members == b.value.members; }
  }

  /** Secrets are compared by what they decrypt to, never by ciphertext. */
  lemma {:induction false} ReencryptionIsInvisible(
      v: Json, w: Json, dv: map<string, string>, dw: map<string, string>, read: Reader, depth: nat)
    requires Reencrypted(v, w, dv, dw, read, depth)
    ensures Resolve(v, dv, read, depth) == Resolve(w, dw, read, depth)
    decreases depth, v
  {
    hide IsEnvelope, PlaintextOf;
    match v {
      case JArr(items) =>
        hide Resolve;
        forall i | 0 <= i < |items|
          ensures Resolve(items[i], dv, read, depth) == Resolve(w.items[i], dw, read, depth)
        {
          ReencryptionIsInvisible(items[i], w.items[i], dv, dw, read, depth);
        }
        SameItems(items, w.items, dv, dw, read, depth);
      case JObj(members) =>
        if IsEnvelope(v) {
          EnvelopeIsObject(w);
          var p, q := PlaintextOf(v, dv), PlaintextOf(w, dw);
          if p.Some? && depth > 0 {
            ReencryptionIsInvisible(read(p.value), read(q.value), dv, dw, read, depth - 1);
          }
        } else {
          hide Resolve;
          forall k | k in members
            ensures Resolve(members[k], dv, read, depth) == Resolve(w.members[k], dw, read, depth)
          {
            ReencryptionIsInvisible(members[k], w.members[k], dv, dw, read, depth);
          }
          SameMembers(members, w.members, dv, dw, read, depth);
        }
      case _ =>
    }
  }

  lemma EnvelopeIsObject(v: Json)
    requires IsEnvelope(v)
    ensures v.JObj?
  {
  }

  /** No part of a value is an unverified secret. */
  predicate Clean(v: Value) {
    match v
    case Unverifiable => false
    case Resolved(value) => Clean(value)
    case Arr(items) => forall i :: 0 <= i < |items| ==> Clean(items[i])
    case Obj(members) => forall k <- members :: Clean(members[k])
    case _ => true
  }

  /** Every secret met while resolving could be had. */
  predicate Decryptable(v: Json, decrypted: map<string, string>, read: Reader, depth: nat)
    decreases depth, v
  {
    match v
    case JArr(items) => forall i :: 0 <= i < |items| ==> Decryptable(items[i], decrypted, read, depth)
    case JObj(members) =>
      if IsEnvelope(v) then
        var plaintext := PlaintextOf(v, decrypted);
        plaintext.Some? && depth > 0 && Decryptable(read(plaintext.value), decrypted, read, depth - 1)
      else forall k <- members :: Decryptable(members[k], decrypted, read, depth)
    case _ => true
  }

  predicate ResolvesClean(v: Json, decrypted: map<string, string>, read: Reader, depth: nat) {
    var r := Resolve(v, decrypted, read, depth);
    r.Some? && Clean(r.value)
  }

  lemma CleanItems(items: seq<Json>, decrypted: map<string, string>, read: Reader, depth: nat)
    ensures ResolvesClean(JArr(items), decrypted, read, depth) <==>
            forall i :: 0 <= i < |items| ==> ResolvesClean(items[i], decrypted, read, depth)
  {
    var r := Resolve(JArr(items), decrypted, read, depth);
    if r.Some? {
      assert forall i :: 0 <= i < |items| ==> r.value.items[i] == Resolve(items[i], decrypted, read, depth).value;
    }
  }

  lemma CleanMembers(members: map<string, Json>, decrypted: map<string, string>, read: Reader, depth: nat)
    requires !IsEnvelope(JObj(members))
    ensures ResolvesClean(JObj(members), decrypted, read, depth) <==>
            forall k <- members :: ResolvesClean(members[k], decrypted, read, depth)
  {
    var r := Resolve(JObj(members), decrypted, read, depth);
    if r.Some? {
      assert forall k <- members :: r.value.members[k] == Resolve(members[k], decrypted, read, depth).value;
    }
  }

  /** A value resolves to a clean one exactly when every secret in it could be had. */
  lemma {:induction false} CleanExactlyWhenDecrypted(
      v: Json, decrypted: map<string, string>, read: Reader, depth: nat)
    ensures ResolvesClean(v, decrypted, read, depth) <==> Decryptable(v, decrypted, read, depth)
    decreases depth, v
  {
    match v {
      case JArr(items) =>
        hide ResolvesClean, Resolve, Clean;
        CleanItems(items, decrypted, read, depth);
        forall i | 0 <= i < |items|
          ensures ResolvesClean(items[i], decrypted, read, depth) <==> Decryptable(items[i], decrypted, read, depth)
        {
          CleanExactlyWhenDecrypted(items[i], decrypted, read, depth);
        }
      case JObj(members) =>
        if IsEnvelope(v) {
          var plaintext := PlaintextOf(v, decrypted);
          if plaintext.Some? && depth > 0 {
            CleanExactlyWhenDecrypted(read(plaintext.value), decrypted, read, depth - 1);
          }
        } else {
          hide ResolvesClean, Resolve, Clean;
          CleanMembers(members, decrypted, read, depth);
          forall k | k in members
            ensures ResolvesClean(members[k], decrypted, read, depth)
                    <==> Decryptable(members[k], decrypted, read, depth)
          {
            CleanExactlyWhenDecrypted(members[k], decrypted, read, depth);
          }
        }
      case _ =>
    }
  }

  /** One document says what the other does: every secret could be had, and only the encryption differs. */
  predicate SameOnceDecrypted(
      v: Json, w: Json, dv: map<string, string>, dw: map<string, string>, read: Reader, depth: nat)
  {
    Decryptable(v, dv, read, depth) && Reencrypted(v, w, dv, dw, read, depth)
  }

  predicate ResolveAlike(
      v: Json, w: Json, dv: map<string, string>, dw: map<string, string>, read: Reader, depth: nat)
  {
    ResolvesClean(v, dv, read, depth) && Resolve(w, dw, read, depth) == Resolve(v, dv, read, depth)
  }

  lemma AlikeItems(items: seq<Json>, w: Json, dv: map<string, string>, dw: map<string, string>,
      read: Reader, depth: nat)
    requires ResolveAlike(JArr(items), w, dv, dw, read, depth)
    ensures w.JArr? && |w.items| == |items|
    ensures forall i :: 0 <= i < |items| ==> ResolveAlike(items[i], w.items[i], dv, dw, read, depth)
  {
    var a, b := Resolve(JArr(items), dv, read, depth), Resolve(w, dw, read, depth);
    assert w.JArr?;
    assert |a.value.items| == |items| && |b.value.items| == |w.items|;
    CleanItems(items, dv, read, depth);
    forall i | 0 <= i < |items| ensures ResolveAlike(items[i], w.items[i], dv, dw, read, depth) {
      assert a.value.items[i] == Resolve(items[i], dv, read, depth).value;
      assert b.value.items[i] == Resolve(w.items[i], dw, read, depth).value;
    }
  }

  lemma AlikeMembers(m: map<string, Json>, w: Json, dv: map<string, string>, dw: map<string, string>,
      read: Reader, depth: nat)
    requires !IsEnvelope(JObj(m)) && ResolveAlike(JObj(m), w, dv, dw, read, depth)
    ensures w.JObj? && !IsEnvelope(w) && w.members.Keys == m.Keys
    ensures forall k <- m :: ResolveAlike(m[k], w.members[k], dv, dw, read, depth)
  {
    var a, b := Resolve(JObj(m), dv, read, depth), Resolve(w, dw, read, depth);
    assert w.JObj? && !IsEnvelope(w);
    assert a.value.members.Keys == m.Keys && b.value.members.Keys == w.members.Keys;
    CleanMembers(m, dv, read, depth);
    forall k | k in m ensures ResolveAlike(m[k], w.members[k], dv, dw, read, depth) {
      assert a.value.members[k] == Resolve(m[k], dv, read, depth).value;
      assert b.value.members[k] == Resolve(w.members[k], dw, read, depth).value;
    }
  }

  lemma AlikeSecrets(v: Json, w: Json, dv: map<string, string>, dw: map<string, string>, read: Reader, depth: nat)
    requires IsEnvelope(v) && ResolveAlike(v, w, dv, dw, read, depth)
    ensures depth > 0 && IsEnvelope(w) && PlaintextOf(v, dv).Some? && PlaintextOf(w, dw).Some?
    ensures ResolveAlike(read(PlaintextOf(v, dv).value), read(PlaintextOf(w, dw).value), dv, dw, read, depth - 1)
  {
  }

  lemma {:induction false} AlikeIsReencrypted(
      v: Json, w: Json, dv: map<string, string>, dw: map<string, string>, read: Reader, depth: nat)
    requires ResolveAlike(v, w, dv, dw, read, depth)
    ensures Reencrypted(v, w, dv, dw, read, depth)
    decreases depth, v
  {
    match v {
      case JArr(items) =>
        hide ResolveAlike;
        AlikeItems(items, w, dv, dw, read, depth);
        forall i | 0 <= i < |items| ensures Reencrypted(items[i], w.items[i], dv, dw, read, depth) {
          AlikeIsReencrypted(items[i], w.items[i], dv, dw, read, depth);
        }
      case JObj(members) =>
        hide ResolveAlike;
        if IsEnvelope(v) {
          AlikeSecrets(v, w, dv, dw, read, depth);
          AlikeIsReencrypted(
            read(PlaintextOf(v, dv).value), read(PlaintextOf(w, dw).value), dv, dw, read, depth - 1);
        } else {
          AlikeMembers(members, w, dv, dw, read, depth);
          forall k | k in members ensures Reencrypted(members[k], w.members[k], dv, dw, read, depth) {
            AlikeIsReencrypted(members[k], w.members[k], dv, dw, read, depth);
          }
        }
      case _ =>
    }
  }

  /**
   * Two documents resolve to one value without an unverified secret exactly when every secret
   * could be had and they differ in nothing but how their secrets are encrypted.
   */
  lemma ResolveAlikeExactly(
      v: Json, w: Json, dv: map<string, string>, dw: map<string, string>, read: Reader, depth: nat)
    ensures ResolveAlike(v, w, dv, dw, read, depth) <==> SameOnceDecrypted(v, w, dv, dw, read, depth)
  {
    hide Resolve, Reencrypted, Decryptable, ResolvesClean;
    CleanExactlyWhenDecrypted(v, dv, read, depth);
    if ResolveAlike(v, w, dv, dw, read, depth) { AlikeIsReencrypted(v, w, dv, dw, read, depth); }
    if SameOnceDecrypted(v, w, dv, dw, read, depth) { ReencryptionIsInvisible(v, w, dv, dw, read, depth); }
  }
}
