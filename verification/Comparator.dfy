/**
 * Comparison of two deployments whose secrets are resolved: the walks that report differences,
 * and what it means that they report none.
 */
module Comparator {
  import opened Wrappers
  import opened StateValues

  datatype MismatchKind =
    | UnsupportedSchema
    | MissingOnTarget
    | MissingOnSource
    | DuplicateUrnCount
    | FieldMismatch
    | UnverifiableSecret

  datatype Mismatch = Mismatch(urn: Option<string>, kind: MismatchKind)

  class Report {
    var mismatches: seq<Mismatch>

    constructor ()
      ensures mismatches == []
    {
      mismatches := [];
    }

    method Add(urn: Option<string>, kind: MismatchKind)
      modifies this
      ensures mismatches == old(mismatches) + [Mismatch(urn, kind)]
    {
      mismatches := mismatches + [Mismatch(urn, kind)];
    }
  }

  /** Differences were appended, none exactly when the two sides agree. */
  ghost predicate Reported(before: seq<Mismatch>, after: seq<Mismatch>, agree: bool) {
    before <= after && (before == after <==> agree)
  }

  /** The appended differences are of one resource, and say a secret is unverified only if one is. */
  ghost predicate Entries(before: seq<Mismatch>, after: seq<Mismatch>, urn: Option<string>, clean: bool) {
    |before| <= |after| && forall i :: |before| <= i < |after| ==> EntryOk(after[i], urn, clean)
  }

  predicate EntryOk(m: Mismatch, urn: Option<string>, clean: bool) {
    m.urn == urn && (m.kind == FieldMismatch || (m.kind == UnverifiableSecret && !clean))
  }

  predicate Tells(ms: seq<Mismatch>, kind: MismatchKind) {
    exists m <- ms :: m.kind == kind
  }

  /** The appended differences tell of a field exactly if one differs, and of a doubt exactly if there is one. */
  ghost predicate Told(before: seq<Mismatch>, after: seq<Mismatch>, differs: bool, doubts: bool) {
    && |before| <= |after|
    && (Tells(after[|before|..], FieldMismatch) <==> differs)
    && (Tells(after[|before|..], UnverifiableSecret) <==> doubts)
  }

  lemma ToldNothing(ms: seq<Mismatch>)
    ensures Told(ms, ms, false, false)
  {
  }

  lemma ToldOne(ms: seq<Mismatch>, m: Mismatch)
    ensures Told(ms, ms + [m], m.kind == FieldMismatch, m.kind == UnverifiableSecret)
  {
    assert (ms + [m])[|ms|..] == [m] && [m][0] == m;
  }

  lemma ToldBoth(a: seq<Mismatch>, b: seq<Mismatch>, c: seq<Mismatch>, d: bool, u: bool, d': bool, u': bool)
    requires a <= b <= c && Told(a, b, d, u) && Told(b, c, d', u')
    ensures Told(a, c, d || d', u || u')
  {
    hide Told;
    TellsBoth(b[|a|..], c[|b|..], FieldMismatch);
    TellsBoth(b[|a|..], c[|b|..], UnverifiableSecret);
    assert c[|a|..] == b[|a|..] + c[|b|..];
    ToldMeans(a, b, d, u);
    ToldMeans(b, c, d', u');
    ToldMeans(a, c, d || d', u || u');
  }

  lemma ToldMeans(a: seq<Mismatch>, b: seq<Mismatch>, d: bool, u: bool)
    requires |a| <= |b|
    ensures Told(a, b, d, u) <==>
            (Tells(b[|a|..], FieldMismatch) <==> d) && (Tells(b[|a|..], UnverifiableSecret) <==> u)
  {
  }

  lemma TellsBoth(x: seq<Mismatch>, y: seq<Mismatch>, kind: MismatchKind)
    ensures Tells(x + y, kind) <==> Tells(x, kind) || Tells(y, kind)
  {
    if Tells(x, kind) { var m :| m in x && m.kind == kind; assert m in x + y; }
    if Tells(y, kind) { var m :| m in y && m.kind == kind; assert m in x + y; }
  }

  // --------------------------------------------------------------------- one pair of values

  /** Equal, with no secret that could not be verified. */
  predicate Same(a: Value, b: Value) {
    a == b && Clean(a)
  }

  /** The zero values that Go's `omitempty` leaves out; a secret is never one. */
  predicate IsZero(v: Value) {
    || v == Undef || v == Null || v == Bool(false) || v == Str("") || v == Num(0)
    || v == Arr([]) || v == Obj(map[])
  }

  /** One member of two objects at the first level: equal where both have it, zero where one does. */
  predicate MemberAgrees(m: map<string, Value>, n: map<string, Value>, k: string) {
    if k in m && k in n then Same(m[k], n[k])
    else if k in m then IsZero(m[k])
    else if k in n then IsZero(n[k])
    else true
  }

  predicate MembersAgree(m: map<string, Value>, n: map<string, Value>) {
    forall k <- m.Keys + n.Keys :: MemberAgrees(m, n, k)
  }

  /** Agreement of two resources, or of the two deployments' own fields. */
  predicate Agrees(a: Value, b: Value) {
    if a.Obj? && b.Obj? then MembersAgree(a.members, b.members) else Same(a, b)
  }

  /** Where both values can be looked at they differ; what could not be verified differs from nothing. */
  predicate Differs(a: Value, b: Value, once: bool)
    decreases a
  {
    if a.Unverifiable? || b.Unverifiable? then false
    else if a.Resolved? && b.Resolved? then Differs(a.value, b.value, false)
    else if a.Arr? && b.Arr? && |a.items| == |b.items| then
      exists i :: 0 <= i < |a.items| && Differs(a.items[i], b.items[i], false)
    else if a.Obj? && b.Obj? then
      || (exists k <- a.members :: k !in b.members && !(once && IsZero(a.members[k])))
      || (exists k <- b.members :: k !in a.members && !(once && IsZero(b.members[k])))
      || exists k <- a.members :: k in b.members && Differs(a.members[k], b.members[k], false)
    else a != b
  }

  /** At some place of both values one holds what could not be verified. */
  predicate Doubts(a: Value, b: Value)
    decreases a
  {
    if a.Unverifiable? || b.Unverifiable? then true
    else if a.Resolved? && b.Resolved? then Doubts(a.value, b.value)
    else if a.Arr? && b.Arr? && |a.items| == |b.items| then
      exists i :: 0 <= i < |a.items| && Doubts(a.items[i], b.items[i])
    else if a.Obj? && b.Obj? then exists k <- a.members :: k in b.members && Doubts(a.members[k], b.members[k])
    else false
  }

  predicate ItemsDiffer(a: seq<Value>, b: seq<Value>, n: nat)
    requires n <= |a| && |a| == |b|
  {
    exists i :: 0 <= i < n && Differs(a[i], b[i], false)
  }

  predicate ItemsDoubt(a: seq<Value>, b: seq<Value>, n: nat)
    requires n <= |a| && |a| == |b|
  {
    exists i :: 0 <= i < n && Doubts(a[i], b[i])
  }

  predicate KeyDiffers(m: map<string, Value>, n: map<string, Value>, k: string, once: bool) {
    if k in m && k in n then Differs(m[k], n[k], false)
    else if k in m then !(once && IsZero(m[k]))
    else k in n && !(once && IsZero(n[k]))
  }

  predicate KeyDoubts(m: map<string, Value>, n: map<string, Value>, k: string) {
    k in m && k in n && Doubts(m[k], n[k])
  }

  predicate KeysDiffer(m: map<string, Value>, n: map<string, Value>, keys: set<string>, once: bool) {
    exists k <- keys :: KeyDiffers(m, n, k, once)
  }

  predicate KeysDoubt(m: map<string, Value>, n: map<string, Value>, keys: set<string>) {
    exists k <- keys :: KeyDoubts(m, n, k)
  }

  predicate ItemsAgree(a: seq<Value>, b: seq<Value>, n: nat)
    requires n <= |a| && |a| == |b|
  {
    forall i :: 0 <= i < n ==> Same(a[i], b[i])
  }

  method DiffArrays(a: Value, b: Value, urn: Option<string>, out: Report)
    requires a.Arr? && b.Arr? && |a.items| == |b.items|
    modifies out
    ensures Reported(old(out.mismatches), out.mismatches, Same(a, b))
    ensures Entries(old(out.mismatches), out.mismatches, urn, Clean(a) && Clean(b))
    ensures Told(old(out.mismatches), out.mismatches, Differs(a, b, false), Doubts(a, b))
    decreases a, 0
  {
    hide Told, Same, Differs, Doubts;
    ghost var was := out.mismatches;
    ToldNothing(was);
    for i := 0 to |a.items|
      invariant Reported(was, out.mismatches, ItemsAgree(a.items, b.items, i))
      invariant Entries(was, out.mismatches, urn, Clean(a) && Clean(b))
      invariant Told(was, out.mismatches, ItemsDiffer(a.items, b.items, i), ItemsDoubt(a.items, b.items, i))
    {
      ghost var before := out.mismatches;
      DiffValues(a.items[i], b.items[i], urn, out, false);
      ToldBoth(was, before, out.mismatches, ItemsDiffer(a.items, b.items, i), ItemsDoubt(a.items, b.items, i),
          Differs(a.items[i], b.items[i], false), Doubts(a.items[i], b.items[i]));
    }
    SameArrays(a, b);
    ArrayVerdict(a, b);
  }

  lemma SameArrays(a: Value, b: Value)
    requires a.Arr? && b.Arr? && |a.items| == |b.items|
    ensures ItemsAgree(a.items, b.items, |a.items|) <==> Same(a, b)
  {
    if ItemsAgree(a.items, b.items, |a.items|) { assert a.items == b.items; }
  }

  lemma ArrayVerdict(a: Value, b: Value)
    requires a.Arr? && b.Arr? && |a.items| == |b.items|
    ensures ItemsDiffer(a.items, b.items, |a.items|) <==> Differs(a, b, false)
    ensures ItemsDoubt(a.items, b.items, |a.items|) <==> Doubts(a, b)
  {
  }

  predicate KeyAgrees(m: map<string, Value>, n: map<string, Value>, k: string, once: bool) {
    if once then MemberAgrees(m, n, k) else k in m && k in n && Same(m[k], n[k])
  }

  predicate KeysAgree(m: map<string, Value>, n: map<string, Value>, keys: set<string>, once: bool) {
    forall k <- keys :: KeyAgrees(m, n, k, once)
  }

  lemma OneMoreKey(m: map<string, Value>, n: map<string, Value>, all: set<string>, keys: set<string>, k: string,
      once: bool)
    requires k in keys && keys <= all
    ensures KeysAgree(m, n, all - (keys - {k}), once) <==> KeysAgree(m, n, all - keys, once) && KeyAgrees(m, n, k, once)
    ensures KeysDiffer(m, n, all - (keys - {k}), once) <==>
            KeysDiffer(m, n, all - keys, once) || KeyDiffers(m, n, k, once)
    ensures KeysDoubt(m, n, all - (keys - {k})) <==> KeysDoubt(m, n, all - keys) || KeyDoubts(m, n, k)
  {
    hide KeyAgrees, KeyDiffers, KeyDoubts;
    assert all - (keys - {k}) == (all - keys) + {k};
  }

  lemma SameObjects(a: Value, b: Value)
    requires a.Obj? && b.Obj?
    ensures KeysAgree(a.members, b.members, a.members.Keys + b.members.Keys, false) <==> Same(a, b)
  {
    var m, n := a.members, b.members;
    if KeysAgree(m, n, m.Keys + n.Keys, false) {
      assert forall k :: k in m.Keys + n.Keys ==> KeyAgrees(m, n, k, false);
      assert m.Keys == n.Keys && m == n;
    }
  }

  /** One member of two objects. */
  method DiffMember(a: Value, b: Value, k: string, urn: Option<string>, out: Report, once: bool)
    requires a.Obj? && b.Obj? && (k in a.members || k in b.members)
    modifies out
    ensures Reported(old(out.mismatches), out.mismatches, KeyAgrees(a.members, b.members, k, once))
    ensures Entries(old(out.mismatches), out.mismatches, urn, Clean(a) && Clean(b))
    ensures Told(old(out.mismatches), out.mismatches,
        KeyDiffers(a.members, b.members, k, once), KeyDoubts(a.members, b.members, k))
    decreases a, 0
  {
    hide Told, Same, IsZero, Differs, Doubts;
    ghost var was := out.mismatches;
    if k in a.members && k in b.members {
      DiffValues(a.members[k], b.members[k], urn, out, false);
    } else if once && IsZero(if k in a.members then a.members[k] else b.members[k]) {
      ToldNothing(was);
    } else {
      out.Add(urn, FieldMismatch);
      ToldOne(was, Mismatch(urn, FieldMismatch));
    }
  }

  method DiffMembers(a: Value, b: Value, urn: Option<string>, out: Report, once: bool)
    requires a.Obj? && b.Obj?
    modifies out
    ensures Reported(old(out.mismatches), out.mismatches, if once then Agrees(a, b) else Same(a, b))
    ensures Entries(old(out.mismatches), out.mismatches, urn, Clean(a) && Clean(b))
    ensures Told(old(out.mismatches), out.mismatches, Differs(a, b, once), Doubts(a, b))
    decreases a, 1
  {
    hide KeysAgree, Same, IsZero, Told, KeysDiffer, KeysDoubt, Differs, Doubts, KeyAgrees, KeyDiffers, KeyDoubts;
    ghost var was := out.mismatches;
    ToldNothing(was);
    ghost var all := a.members.Keys + b.members.Keys;
    var keys := a.members.Keys + b.members.Keys;
    NoKeys(a.members, b.members, all - keys, once);
    while keys != {}
      invariant keys <= all
      invariant Reported(was, out.mismatches, KeysAgree(a.members, b.members, all - keys, once))
      invariant Entries(was, out.mismatches, urn, Clean(a) && Clean(b))
      invariant Told(was, out.mismatches,
          KeysDiffer(a.members, b.members, all - keys, once), KeysDoubt(a.members, b.members, all - keys))
      decreases |keys|
    {
      var k :| k in keys;
      OneMoreKey(a.members, b.members, all, keys, k, once);
      ghost var before := out.mismatches;
      ghost var differ := KeysDiffer(a.members, b.members, all - keys, once);
      ghost var doubt := KeysDoubt(a.members, b.members, all - keys);
      keys := keys - {k};
      DiffMember(a, b, k, urn, out, once);
      ToldBoth(was, before, out.mismatches, differ, doubt,
          KeyDiffers(a.members, b.members, k, once), KeyDoubts(a.members, b.members, k));
    }
    assert all - keys == all;
    ObjectVerdict(a, b, once);
    if once { AllMembers(a.members, b.members); } else { SameObjects(a, b); }
  }

  lemma NoKeys(m: map<string, Value>, n: map<string, Value>, keys: set<string>, once: bool)
    requires keys == {}
    ensures KeysAgree(m, n, keys, once) && !KeysDiffer(m, n, keys, once) && !KeysDoubt(m, n, keys)
  {
  }

  lemma ObjectVerdict(a: Value, b: Value, once: bool)
    requires a.Obj? && b.Obj?
    ensures KeysDiffer(a.members, b.members, a.members.Keys + b.members.Keys, once) <==> Differs(a, b, once)
    ensures KeysDoubt(a.members, b.members, a.members.Keys + b.members.Keys) <==> Doubts(a, b)
  {
    hide IsZero;
    var m, n, all := a.members, b.members, a.members.Keys + b.members.Keys;
    if KeysDiffer(m, n, all, once) {
      var k :| k in all && KeyDiffers(m, n, k, once);
      assert k in m || k in n;
    }
    if Differs(a, b, once) {
      if k :| k in m && k !in n && !(once && IsZero(m[k])) { assert k in all && KeyDiffers(m, n, k, once); }
      if k :| k in n && k !in m && !(once && IsZero(n[k])) { assert k in all && KeyDiffers(m, n, k, once); }
      if k :| k in m && k in n && Differs(m[k], n[k], false) { assert k in all && KeyDiffers(m, n, k, once); }
    }
    if Doubts(a, b) {
      var k :| k in m && k in n && Doubts(m[k], n[k]);
      assert k in all && KeyDoubts(m, n, k);
    }
  }

  lemma AllMembers(m: map<string, Value>, n: map<string, Value>)
    ensures KeysAgree(m, n, m.Keys + n.Keys, true) <==> MembersAgree(m, n)
  {
  }

  predicate AgreesAs(a: Value, b: Value, once: bool) {
    if once then Agrees(a, b) else Same(a, b)
  }

  /** What the walk has to say of two values by their shapes. */
  lemma ByShape(a: Value, b: Value, once: bool)
    ensures a.Unverifiable? || b.Unverifiable? ==>
      !Differs(a, b, once) && Doubts(a, b) && !AgreesAs(a, b, once) && !(Clean(a) && Clean(b))
    ensures a.Resolved? && b.Resolved? ==>
      && Differs(a, b, once) == Differs(a.value, b.value, false) && Doubts(a, b) == Doubts(a.value, b.value)
      && AgreesAs(a, b, once) == Same(a.value, b.value) && Clean(a) == Clean(a.value) && Clean(b) == Clean(b.value)
    ensures a.Arr? && b.Arr? ==> AgreesAs(a, b, once) == Same(a, b) && Differs(a, b, once) == Differs(a, b, false)
    ensures !a.Unverifiable? && !b.Unverifiable? && !(a.Resolved? && b.Resolved?) && !(a.Obj? && b.Obj?)
            && !(a.Arr? && b.Arr? && |a.items| == |b.items|) ==>
      Differs(a, b, once) == (a != b) && !Doubts(a, b) && AgreesAs(a, b, once) == (a == b)
  {
    hide IsZero, MembersAgree;
  }

  /** The structural difference; `once` applies the zero-value rule to the members of this level only. */
  method DiffValues(a: Value, b: Value, urn: Option<string>, out: Report, once: bool)
    modifies out
    ensures Reported(old(out.mismatches), out.mismatches, AgreesAs(a, b, once))
    ensures Entries(old(out.mismatches), out.mismatches, urn, Clean(a) && Clean(b))
    ensures Told(old(out.mismatches), out.mismatches, Differs(a, b, once), Doubts(a, b))
    decreases a, 2
  {
    hide Told, Entries, Agrees, Same, Differs, Doubts, Clean;
    ByShape(a, b, once);
    EntryOf(out.mismatches, urn, Clean(a) && Clean(b));
    ghost var was := out.mismatches;
    ToldNothing(was);
    ToldOne(was, Mismatch(urn, FieldMismatch));
    ToldOne(was, Mismatch(urn, UnverifiableSecret));
    if a.Unverifiable? || b.Unverifiable? {
      out.Add(urn, UnverifiableSecret);
      return;
    }
    if a.Resolved? && b.Resolved? {
      DiffValues(a.value, b.value, urn, out, false);
      return;
    }
    if a.Resolved? || b.Resolved? {
      out.Add(urn, FieldMismatch);
      return;
    }
    if a.Arr? && b.Arr? {
      if |a.items| != |b.items| {
        out.Add(urn, FieldMismatch);
        return;
      }
      DiffArrays(a, b, urn, out);
      return;
    }
    if a.Arr? != b.Arr? {
      out.Add(urn, FieldMismatch);
      return;
    }
    if a.Obj? && b.Obj? {
      DiffMembers(a, b, urn, out, once);
      return;
    }
    if a.Obj? != b.Obj? {
      out.Add(urn, FieldMismatch);
      return;
    }
    if a != b {
      out.Add(urn, FieldMismatch);
    }
  }

  lemma EntryOf(ms: seq<Mismatch>, urn: Option<string>, clean: bool)
    ensures Entries(ms, ms, urn, clean) && Entries(ms, ms + [Mismatch(urn, FieldMismatch)], urn, clean)
    ensures !clean ==> Entries(ms, ms + [Mismatch(urn, UnverifiableSecret)], urn, clean)
  {
  }

  // --------------------------------------------------------------------- what a difference means

  /** `c` is `a` with some value for each secret that could not be verified. */
  predicate FillsTo(a: Value, c: Value)
    decreases a
  {
    match a
    case Unverifiable => true
    case Resolved(value) => c.Resolved? && FillsTo(value, c.value)
    case Arr(items) => c.Arr? && |c.items| == |items| && forall i :: 0 <= i < |items| ==> FillsTo(items[i], c.items[i])
    case Obj(members) =>
      && c.Obj? && c.members.Keys == members.Keys
      && forall k <- members :: k in c.members && FillsTo(members[k], c.members[k])
    case _ => a == c
  }

  /** The two could be the same value, for some values of what could not be verified. */
  ghost predicate CouldBeSame(a: Value, b: Value) {
    exists c: Value :: FillsTo(a, c) && FillsTo(b, c)
  }

  /** Null for every secret that could not be verified. */
  function Filled(v: Value): Value {
    match v
    case Unverifiable => Null
    case Resolved(value) => Resolved(Filled(value))
    case Arr(items) => Arr(seq(|items|, i requires 0 <= i < |items| => Filled(items[i])))
    case Obj(members) => Obj(map k <- members :: Filled(members[k]))
    case _ => v
  }

  /** What both values say, each filling what the other could not verify. */
  function Merged(a: Value, b: Value): Value
    decreases a
  {
    if a.Unverifiable? then Filled(b)
    else if b.Unverifiable? then Filled(a)
    else if a.Resolved? && b.Resolved? then Resolved(Merged(a.value, b.value))
    else if a.Arr? && b.Arr? && |a.items| == |b.items| then
      Arr(seq(|a.items|, i requires 0 <= i < |a.items| => Merged(a.items[i], b.items[i])))
    else if a.Obj? && b.Obj? then
      Obj(map k <- a.members :: if k in b.members then Merged(a.members[k], b.members[k]) else a.members[k])
    else a
  }

  lemma {:induction false} FilledFills(v: Value)
    ensures FillsTo(v, Filled(v))
  {
    match v {
      case Resolved(value) => FilledFills(value);
      case Arr(items) =>
        forall i | 0 <= i < |items| ensures FillsTo(items[i], Filled(items[i])) { FilledFills(items[i]); }
      case Obj(members) =>
        forall k | k in members ensures FillsTo(members[k], Filled(members[k])) { FilledFills(members[k]); }
      case _ =>
    }
  }

  lemma {:induction false} MergedFills(a: Value, b: Value)
    requires !Differs(a, b, false)
    ensures FillsTo(a, Merged(a, b)) && FillsTo(b, Merged(a, b))
    decreases a
  {
    FilledFills(a);
    FilledFills(b);
    if !a.Unverifiable? && !b.Unverifiable? {
      if a.Resolved? && b.Resolved? {
        MergedFills(a.value, b.value);
      } else if a.Arr? && b.Arr? && |a.items| == |b.items| {
        forall i | 0 <= i < |a.items|
          ensures FillsTo(a.items[i], Merged(a, b).items[i]) && FillsTo(b.items[i], Merged(a, b).items[i])
        {
          MergedFills(a.items[i], b.items[i]);
        }
      } else if a.Obj? && b.Obj? {
        assert a.members.Keys == b.members.Keys;
        forall k | k in a.members
          ensures FillsTo(a.members[k], Merged(a, b).members[k]) && FillsTo(b.members[k], Merged(a, b).members[k])
        {
          MergedFills(a.members[k], b.members[k]);
        }
      } else {
        ScalarFills(a);
      }
    }
  }

  lemma ScalarFills(a: Value)
    requires !a.Resolved? && !a.Arr? && !a.Obj?
    ensures FillsTo(a, a)
  {
  }

  lemma {:induction false} FillsDifferNot(a: Value, b: Value, c: Value)
    requires FillsTo(a, c) && FillsTo(b, c)
    ensures !Differs(a, b, false)
    decreases a
  {
    if a.Resolved? && b.Resolved? {
      FillsDifferNot(a.value, b.value, c.value);
    } else if a.Arr? && b.Arr? {
      forall i | 0 <= i < |a.items| ensures !Differs(a.items[i], b.items[i], false) {
        FillsDifferNot(a.items[i], b.items[i], c.items[i]);
      }
    } else if a.Obj? && b.Obj? {
      forall k | k in a.members ensures k in b.members && !Differs(a.members[k], b.members[k], false) {
        FillsDifferNot(a.members[k], b.members[k], c.members[k]);
      }
    }
  }

  /**
   * A field is reported as different exactly when the values are different whatever the secrets
   * that could not be verified decrypt to.
   */
  lemma DiffersExactly(a: Value, b: Value)
    ensures Differs(a, b, false) <==> !CouldBeSame(a, b)
  {
    hide Differs, FillsTo, Merged;
    if c: Value :| FillsTo(a, c) && FillsTo(b, c) { FillsDifferNot(a, b, c); }
    if !Differs(a, b, false) { MergedFills(a, b); }
  }

  /** No difference and no doubt is agreement. */
  lemma {:induction false} VerdictIsSame(a: Value, b: Value)
    ensures Same(a, b) <==> !Differs(a, b, false) && !Doubts(a, b)
    decreases a
  {
    if a.Resolved? && b.Resolved? {
      VerdictIsSame(a.value, b.value);
    } else if a.Arr? && b.Arr? && |a.items| == |b.items| {
      forall i | 0 <= i < |a.items|
        ensures Same(a.items[i], b.items[i]) <==>
                !Differs(a.items[i], b.items[i], false) && !Doubts(a.items[i], b.items[i])
      {
        VerdictIsSame(a.items[i], b.items[i]);
      }
      SameArrays(a, b);
    } else if a.Obj? && b.Obj? {
      forall k | k in a.members && k in b.members
        ensures Same(a.members[k], b.members[k]) <==>
                !Differs(a.members[k], b.members[k], false) && !Doubts(a.members[k], b.members[k])
      {
        VerdictIsSame(a.members[k], b.members[k]);
      }
      SameObjects(a, b);
      ObjectVerdict(a, b, false);
    }
  }
}
