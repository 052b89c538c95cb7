/**
 * Pairing of resources: grouped by URN, each group sorted by a key of two parts, the signature of
 * the resource without its zero members and then its own, and compared in order.
 */
module ResourcePairing {
  import opened Wrappers
  import opened StateValues
  import opened Comparator

  /** An order of values. Signatures are taken to be injective, so their order is one of the values. */
  type Order = (Value, Value) -> bool

  ghost predicate TotalOrder(le: Order) {
    && (forall x, y :: le(x, y) || le(y, x))
    && (forall x, y :: le(x, y) && le(y, x) ==> x == y)
    && (forall x, y, z :: le(x, y) && le(y, z) ==> le(x, z))
  }

  /** The members of an object as the key sees it; a secret's own mark is not a member. */
  function OwnMembers(v: Value): map<string, Value> {
    match v
    case Obj(members) => members
    case Resolved(value) => map["value" := value]
    case _ => map[]
  }

  /** A resource without the members that are zero values; anything but an object stays as it is. */
  function Normal(v: Value): Value {
    if v.Obj? || v.Resolved? || v.Unverifiable? then
      Obj(map k | k in OwnMembers(v) && !IsZero(OwnMembers(v)[k]) :: OwnMembers(v)[k])
    else v
  }

  /** The pairing key's order: by what is left without zero members first, by the whole resource next. */
  function PairingOrder(sig: Order): Order {
    (x, y) => if Normal(x) == Normal(y) then sig(x, y) else sig(Normal(x), Normal(y))
  }

  lemma Between(sig: Order, x: Value, y: Value, z: Value)
    requires TotalOrder(sig) && PairingOrder(sig)(x, y) && PairingOrder(sig)(y, z)
    ensures PairingOrder(sig)(x, z)
  {
    hide Normal;
    var a, b, c := Normal(x), Normal(y), Normal(z);
    if a != b && b != c { assert sig(a, b) && sig(b, c) && sig(a, c); }
  }

  lemma PairingOrderIsTotal(sig: Order)
    requires TotalOrder(sig)
    ensures TotalOrder(PairingOrder(sig))
  {
    hide Normal;
    var le := PairingOrder(sig);
    forall x, y ensures le(x, y) || le(y, x) {
      assert sig(x, y) || sig(y, x);
      assert sig(Normal(x), Normal(y)) || sig(Normal(y), Normal(x));
    }
    forall x, y | le(x, y) && le(y, x) ensures x == y {
      if Normal(x) == Normal(y) { BothWays(sig, x, y); } else { BothWays(sig, Normal(x), Normal(y)); }
    }
    forall x, y, z | le(x, y) && le(y, z) ensures le(x, z) { Between(sig, x, y, z); }
  }

  function UrnOf(v: Value): string {
    if v.Obj? && "urn" in v.members && v.members["urn"].Str? then v.members["urn"].s else ""
  }

  /** The resources of one URN, in list order. */
  function Group(list: seq<Value>, urn: string): seq<Value> {
    if list == [] then []
    else
      Group(list[..|list| - 1], urn) + if UrnOf(list[|list| - 1]) == urn then [list[|list| - 1]] else []
  }

  function Urns(list: seq<Value>): set<string> {
    set v <- list :: UrnOf(v)
  }

  function InsertInto(le: Order, s: seq<Value>, x: Value): seq<Value> {
    if s == [] || le(s[|s| - 1], x) then s + [x]
    else InsertInto(le, s[..|s| - 1], x) + [s[|s| - 1]]
  }

  function Sort(le: Order, s: seq<Value>): seq<Value> {
    if s == [] then [] else InsertInto(le, Sort(le, s[..|s| - 1]), s[|s| - 1])
  }

  predicate PairsAgree(p: seq<Value>, q: seq<Value>) {
    |p| == |q| && forall i :: 0 <= i < |p| ==> Agrees(p[i], q[i])
  }

  predicate PairsDiffer(p: seq<Value>, q: seq<Value>) {
    |p| == |q| && exists i :: 0 <= i < |p| && Differs(p[i], q[i], true)
  }

  predicate PairsDoubt(p: seq<Value>, q: seq<Value>) {
    |p| == |q| && exists i :: 0 <= i < |p| && Doubts(p[i], q[i])
  }

  /** Some two resources of the URN that are paired differ, or hold what could not be verified. */
  predicate UrnDiffers(le: Order, source: seq<Value>, target: seq<Value>, urn: string) {
    PairsDiffer(Sort(le, Group(source, urn)), Sort(le, Group(target, urn)))
  }

  predicate UrnDoubts(le: Order, source: seq<Value>, target: seq<Value>, urn: string) {
    PairsDoubt(Sort(le, Group(source, urn)), Sort(le, Group(target, urn)))
  }

  predicate ResourcesDiffer(le: Order, source: seq<Value>, target: seq<Value>) {
    exists urn <- Urns(source) + Urns(target) :: UrnDiffers(le, source, target, urn)
  }

  predicate ResourcesDoubt(le: Order, source: seq<Value>, target: seq<Value>) {
    exists urn <- Urns(source) + Urns(target) :: UrnDoubts(le, source, target, urn)
  }

  predicate GroupsAgree(le: Order, g: seq<Value>, h: seq<Value>) {
    g != [] && h != [] && |g| == |h| && PairsAgree(Sort(le, g), Sort(le, h))
  }

  predicate UrnAgrees(le: Order, source: seq<Value>, target: seq<Value>, urn: string) {
    GroupsAgree(le, Group(source, urn), Group(target, urn))
  }

  predicate ResourcesAgree(le: Order, source: seq<Value>, target: seq<Value>) {
    forall urn <- Urns(source) + Urns(target) :: UrnAgrees(le, source, target, urn)
  }

  // --------------------------------------------------------------------- the code

  function Lookup(groups: map<string, seq<Value>>, urn: string): seq<Value> {
    if urn in groups then groups[urn] else []
  }

  ghost predicate Grouped(groups: map<string, seq<Value>>, list: seq<Value>) {
    groups.Keys == Urns(list) && forall urn :: Lookup(groups, urn) == Group(list, urn)
  }

  lemma UrnsAppend(init: seq<Value>, last: Value)
    ensures Urns(init + [last]) == Urns(init) + {UrnOf(last)}
  {
    hide UrnOf;
  }

  lemma GroupAppend(init: seq<Value>, last: Value, urn: string)
    ensures Group(init + [last], urn) == Group(init, urn) + if UrnOf(last) == urn then [last] else []
  {
    hide UrnOf;
    var list := init + [last];
    assert list[..|list| - 1] == init;
  }

  lemma OneMoreGrouped(groups: map<string, seq<Value>>, init: seq<Value>, last: Value)
    requires Grouped(groups, init)
    ensures Grouped(groups[UrnOf(last) := Lookup(groups, UrnOf(last)) + [last]], init + [last])
  {
    hide UrnOf, Urns, Group;
    var groups' := groups[UrnOf(last) := Lookup(groups, UrnOf(last)) + [last]];
    UrnsAppend(init, last);
    forall urn ensures Lookup(groups', urn) == Group(init + [last], urn) {
      GroupAppend(init, last, urn);
      assert Lookup(groups, urn) == Group(init, urn);
    }
  }

  method GroupByUrn(list: seq<Value>) returns (groups: map<string, seq<Value>>)
    ensures Grouped(groups, list)
  {
    hide Grouped, UrnOf, Lookup;
    groups := map[];
    NoneGrouped(list[..0]);
    for i := 0 to |list|
      invariant Grouped(groups, list[..i])
    {
      var urn := UrnOf(list[i]);
      OneMoreGrouped(groups, list[..i], list[i]);
      assert list[..i] + [list[i]] == list[..i + 1];
      groups := groups[urn := Lookup(groups, urn) + [list[i]]];
    }
    assert list[..|list|] == list;
  }

  lemma NoneGrouped(list: seq<Value>)
    requires list == []
    ensures Grouped(map[], list)
  {
  }

  lemma {:induction false} AbsentGroup(list: seq<Value>, urn: string)
    ensures Group(list, urn) == [] <==> urn !in Urns(list)
  {
    if list != [] {
      var init, last := list[..|list| - 1], list[|list| - 1];
      AbsentGroup(init, urn);
      assert list == init + [last];
    }
  }

  predicate AllClean(list: seq<Value>) {
    forall v <- list :: Clean(v)
  }

  method ComparePairs(p: seq<Value>, q: seq<Value>, urn: string, out: Report)
    requires |p| == |q|
    modifies out
    ensures Reported(old(out.mismatches), out.mismatches, PairsAgree(p, q))
    ensures Entries(old(out.mismatches), out.mismatches, Some(urn), AllClean(p) && AllClean(q))
    ensures Told(old(out.mismatches), out.mismatches, PairsDiffer(p, q), PairsDoubt(p, q))
  {
    hide Agrees, Clean, Told, Differs, Doubts;
    ToldNothing(out.mismatches);
    for i := 0 to |p|
      invariant Told(old(out.mismatches), out.mismatches, PairsDiffer(p[..i], q[..i]), PairsDoubt(p[..i], q[..i]))
      invariant Reported(old(out.mismatches), out.mismatches, PairsAgree(p[..i], q[..i]))
      invariant Entries(old(out.mismatches), out.mismatches, Some(urn), AllClean(p) && AllClean(q))
    {
      assert p[i] in p && q[i] in q;
      ghost var before := out.mismatches;
      DiffValues(p[i], q[i], Some(urn), out, true);
      OneMorePair(p, q, i);
      ToldBoth(old(out.mismatches), before, out.mismatches, PairsDiffer(p[..i], q[..i]), PairsDoubt(p[..i], q[..i]),
          Differs(p[i], q[i], true), Doubts(p[i], q[i]));
    }
    assert p[..|p|] == p && q[..|q|] == q;
  }

  lemma OneMorePair(p: seq<Value>, q: seq<Value>, i: nat)
    requires |p| == |q| && i < |p|
    ensures PairsAgree(p[..i + 1], q[..i + 1]) <==> PairsAgree(p[..i], q[..i]) && Agrees(p[i], q[i])
    ensures PairsDiffer(p[..i + 1], q[..i + 1]) <==> PairsDiffer(p[..i], q[..i]) || Differs(p[i], q[i], true)
    ensures PairsDoubt(p[..i + 1], q[..i + 1]) <==> PairsDoubt(p[..i], q[..i]) || Doubts(p[i], q[i])
  {
    hide Agrees, Differs, Doubts;
    var a, b := p[..i + 1], q[..i + 1];
    assert forall j :: 0 <= j < i ==> a[j] == p[..i][j] && b[j] == q[..i][j];
    assert a[i] == p[i] && b[i] == q[i];
  }

  lemma {:induction false} InsertKeeps(le: Order, s: seq<Value>, x: Value)
    ensures multiset(InsertInto(le, s, x)) == multiset(s) + multiset{x}
    ensures |InsertInto(le, s, x)| == |s| + 1
  {
    if !(s == [] || le(s[|s| - 1], x)) {
      var init, last := s[..|s| - 1], s[|s| - 1];
      InsertKeeps(le, init, x);
      assert s == init + [last];
    }
  }

  /** Sorting is a permutation. */
  lemma {:induction false} SortKeeps(le: Order, s: seq<Value>)
    ensures multiset(Sort(le, s)) == multiset(s) && |Sort(le, s)| == |s|
  {
    if s != [] {
      var init, last := s[..|s| - 1], s[|s| - 1];
      SortKeeps(le, init);
      InsertKeeps(le, Sort(le, init), last);
      assert s == init + [last];
    }
  }

  /** What a reported difference says of the two groups of its URN. */
  predicate Justified(m: Mismatch, urn: string, g: seq<Value>, h: seq<Value>) {
    && m.urn == Some(urn)
    && match m.kind
       case MissingOnSource => g == [] && h != []
       case MissingOnTarget => g != [] && h == []
       case DuplicateUrnCount => g != [] && h != [] && |g| != |h|
       case FieldMismatch => g != [] && |g| == |h|
       case UnverifiableSecret => g != [] && |g| == |h| && !(AllClean(g) && AllClean(h))
       case UnsupportedSchema => false
  }

  ghost predicate AllJustified(before: seq<Mismatch>, after: seq<Mismatch>, urn: string, g: seq<Value>, h: seq<Value>) {
    |before| <= |after| && forall i :: |before| <= i < |after| ==> Justified(after[i], urn, g, h)
  }

  method CompareGroup(le: Order, g: seq<Value>, h: seq<Value>, urn: string, out: Report)
    requires g != [] || h != []
    modifies out
    ensures Reported(old(out.mismatches), out.mismatches, GroupsAgree(le, g, h))
    ensures AllJustified(old(out.mismatches), out.mismatches, urn, g, h)
    ensures Told(old(out.mismatches), out.mismatches, PairsDiffer(Sort(le, g), Sort(le, h)),
        PairsDoubt(Sort(le, g), Sort(le, h)))
  {
    hide AllClean, PairsAgree, Told;
    SortKeeps(le, g);
    SortKeeps(le, h);
    OtherKinds(out.mismatches, urn);
    if g == [] {
      out.Add(Some(urn), MissingOnSource);
      return;
    }
    if h == [] {
      out.Add(Some(urn), MissingOnTarget);
      return;
    }
    if |g| != |h| {
      out.Add(Some(urn), DuplicateUrnCount);
      return;
    }
    SortClean(le, g);
    SortClean(le, h);
    ComparePairs(Sort(le, g), Sort(le, h), urn, out);
  }

  /** A resource that is missing, or there another number of times, tells of no field. */
  lemma OtherKinds(ms: seq<Mismatch>, urn: string)
    ensures Told(ms, ms + [Mismatch(Some(urn), MissingOnSource)], false, false)
    ensures Told(ms, ms + [Mismatch(Some(urn), MissingOnTarget)], false, false)
    ensures Told(ms, ms + [Mismatch(Some(urn), DuplicateUrnCount)], false, false)
  {
    hide Told;
    ToldOne(ms, Mismatch(Some(urn), MissingOnSource));
    ToldOne(ms, Mismatch(Some(urn), MissingOnTarget));
    ToldOne(ms, Mismatch(Some(urn), DuplicateUrnCount));
  }

  lemma SortClean(le: Order, g: seq<Value>)
    ensures AllClean(Sort(le, g)) <==> AllClean(g)
  {
    hide Clean;
    SortKeeps(le, g);
    forall v ensures v in g <==> v in Sort(le, g) {
      assert v in multiset(g) <==> v in multiset(Sort(le, g));
    }
  }

  predicate AllAgree(le: Order, source: seq<Value>, target: seq<Value>, urns: set<string>) {
    forall urn <- urns :: UrnAgrees(le, source, target, urn)
  }

  predicate SomeDiffer(le: Order, source: seq<Value>, target: seq<Value>, urns: set<string>) {
    exists urn <- urns :: UrnDiffers(le, source, target, urn)
  }

  predicate SomeDoubt(le: Order, source: seq<Value>, target: seq<Value>, urns: set<string>) {
    exists urn <- urns :: UrnDoubts(le, source, target, urn)
  }

  lemma OneMoreUrn(le: Order, source: seq<Value>, target: seq<Value>, all: set<string>, left: set<string>, urn: string)
    requires urn in left && left <= all
    ensures AllAgree(le, source, target, all - (left - {urn})) <==>
            AllAgree(le, source, target, all - left) && UrnAgrees(le, source, target, urn)
    ensures SomeDiffer(le, source, target, all - (left - {urn})) <==>
            SomeDiffer(le, source, target, all - left) || UrnDiffers(le, source, target, urn)
    ensures SomeDoubt(le, source, target, all - (left - {urn})) <==>
            SomeDoubt(le, source, target, all - left) || UrnDoubts(le, source, target, urn)
  {
    hide UrnAgrees, UrnDiffers, UrnDoubts;
    assert all - (left - {urn}) == (all - left) + {urn};
  }

  /** Every difference reported for the resources is true of the two lists. */
  predicate ResourceEntryOk(m: Mismatch, source: seq<Value>, target: seq<Value>) {
    m.urn.Some? && Justified(m, m.urn.value, Group(source, m.urn.value), Group(target, m.urn.value))
  }

  lemma JustifiedEntries(
      before: seq<Mismatch>, after: seq<Mismatch>, urn: string, source: seq<Value>, target: seq<Value>)
    requires AllJustified(before, after, urn, Group(source, urn), Group(target, urn))
    ensures forall i :: |before| <= i < |after| ==> ResourceEntryOk(after[i], source, target)
  {
  }

  method CompareUrn(
      le: Order, ghost source: seq<Value>, ghost target: seq<Value>, urn: string,
      sourceGroups: map<string, seq<Value>>, targetGroups: map<string, seq<Value>>, out: Report)
    requires Grouped(sourceGroups, source) && Grouped(targetGroups, target)
    requires urn in sourceGroups.Keys + targetGroups.Keys
    modifies out
    ensures Reported(old(out.mismatches), out.mismatches, UrnAgrees(le, source, target, urn))
    ensures AllJustified(old(out.mismatches), out.mismatches, urn, Group(source, urn), Group(target, urn))
    ensures Told(old(out.mismatches), out.mismatches,
        UrnDiffers(le, source, target, urn), UrnDoubts(le, source, target, urn))
  {
    hide GroupsAgree, Justified, Told;
    AbsentGroup(source, urn);
    AbsentGroup(target, urn);
    assert Lookup(sourceGroups, urn) == Group(source, urn) && Lookup(targetGroups, urn) == Group(target, urn);
    CompareGroup(le, Lookup(sourceGroups, urn), Lookup(targetGroups, urn), urn, out);
  }

  method CompareResources(sig: Order, source: seq<Value>, target: seq<Value>, out: Report)
    modifies out
    ensures Reported(old(out.mismatches), out.mismatches, ResourcesAgree(PairingOrder(sig), source, target))
    ensures forall i :: |old(out.mismatches)| <= i < |out.mismatches| ==>
      ResourceEntryOk(out.mismatches[i], source, target)
    ensures Told(old(out.mismatches), out.mismatches, ResourcesDiffer(PairingOrder(sig), source, target),
        ResourcesDoubt(PairingOrder(sig), source, target))
  {
    hide UrnAgrees, Urns, Justified, Group, PairingOrder, Told, UrnDiffers, UrnDoubts;
    ToldNothing(out.mismatches);
    var le := PairingOrder(sig);
    var sourceGroups := GroupByUrn(source);
    var targetGroups := GroupByUrn(target);
    ghost var all := sourceGroups.Keys + targetGroups.Keys;
    var urns := sourceGroups.Keys + targetGroups.Keys;
    assert all - urns == {};
    while urns != {}
      invariant urns <= all
      invariant Reported(old(out.mismatches), out.mismatches, AllAgree(le, source, target, all - urns))
      invariant Told(old(out.mismatches), out.mismatches,
          SomeDiffer(le, source, target, all - urns), SomeDoubt(le, source, target, all - urns))
      invariant forall i :: |old(out.mismatches)| <= i < |out.mismatches| ==>
        ResourceEntryOk(out.mismatches[i], source, target)
      decreases |urns|
    {
      var urn :| urn in urns;
      OneMoreUrn(le, source, target, all, urns, urn);
      ghost var before := out.mismatches;
      CompareUrn(le, source, target, urn, sourceGroups, targetGroups, out);
      JustifiedEntries(before, out.mismatches, urn, source, target);
      ToldBoth(old(out.mismatches), before, out.mismatches,
          SomeDiffer(le, source, target, all - urns), SomeDoubt(le, source, target, all - urns),
          UrnDiffers(le, source, target, urn), UrnDoubts(le, source, target, urn));
      urns := urns - {urn};
    }
    assert all - urns == all;
  }

  // --------------------------------------------------------------------- distinct URNs

  predicate Distinct(list: seq<Value>) {
    forall i, j :: 0 <= i < j < |list| ==> UrnOf(list[i]) != UrnOf(list[j])
  }

  lemma {:induction false} GroupMembers(list: seq<Value>, urn: string, v: Value)
    ensures v in Group(list, urn) <==> v in list && UrnOf(v) == urn
  {
    if list != [] {
      var init, last := list[..|list| - 1], list[|list| - 1];
      GroupMembers(init, urn, v);
      assert list == init + [last];
    }
  }

  lemma {:induction false} DistinctGroup(list: seq<Value>, i: nat)
    requires Distinct(list) && i < |list|
    ensures Group(list, UrnOf(list[i])) == [list[i]]
  {
    var init, last := list[..|list| - 1], list[|list| - 1];
    var urn := UrnOf(list[i]);
    if i < |init| {
      DistinctGroup(init, i);
    } else {
      forall v | v in init ensures UrnOf(v) != urn {}
      AbsentGroup(init, urn);
    }
  }

  /** With distinct URNs on each side, both list the same URNs and the two resources of each agree. */
  ghost predicate PairwiseAgree(source: seq<Value>, target: seq<Value>) {
    && Urns(source) == Urns(target)
    && forall i, j :: 0 <= i < |source| && 0 <= j < |target| && UrnOf(source[i]) == UrnOf(target[j]) ==>
         Agrees(source[i], target[j])
  }

  lemma OnePair(le: Order, source: seq<Value>, target: seq<Value>, i: nat, j: nat)
    requires Distinct(source) && Distinct(target) && i < |source| && j < |target|
    requires UrnOf(source[i]) == UrnOf(target[j])
    ensures UrnAgrees(le, source, target, UrnOf(source[i])) <==> Agrees(source[i], target[j])
  {
    hide Agrees;
    DistinctGroup(source, i);
    DistinctGroup(target, j);
    assert Sort(le, []) == [];
    assert [source[i]][..0] == [] && [target[j]][..0] == [];
    assert Sort(le, [source[i]]) == [source[i]] && Sort(le, [target[j]]) == [target[j]];
  }

  lemma UrnsMatch(le: Order, source: seq<Value>, target: seq<Value>)
    requires ResourcesAgree(le, source, target)
    ensures Urns(source) == Urns(target)
  {
    forall urn ensures urn in Urns(source) <==> urn in Urns(target) {
      AbsentGroup(source, urn);
      AbsentGroup(target, urn);
      if urn in Urns(source) + Urns(target) { assert UrnAgrees(le, source, target, urn); }
    }
  }

  /** The resource comparison is exact when no URN repeats on a side. */
  lemma DistinctIsExact(le: Order, source: seq<Value>, target: seq<Value>)
    requires Distinct(source) && Distinct(target)
    ensures ResourcesAgree(le, source, target) <==> PairwiseAgree(source, target)
  {
    hide UrnAgrees, Agrees;
    if ResourcesAgree(le, source, target) {
      UrnsMatch(le, source, target);
      forall i, j | 0 <= i < |source| && 0 <= j < |target| && UrnOf(source[i]) == UrnOf(target[j])
        ensures Agrees(source[i], target[j])
      {
        assert UrnOf(source[i]) in Urns(source);
        OnePair(le, source, target, i, j);
      }
    }
    if PairwiseAgree(source, target) {
      forall urn | urn in Urns(source) + Urns(target) ensures UrnAgrees(le, source, target, urn) {
        var i :| 0 <= i < |source| && UrnOf(source[i]) == urn;
        var j :| 0 <= j < |target| && UrnOf(target[j]) == urn;
        OnePair(le, source, target, i, j);
      }
    }
  }

  // --------------------------------------------------------------------- repeated URNs

  /** The two lists can be put in orders that pair agreeing resources of equal URN. */
  ghost predicate Pairing(source: seq<Value>, target: seq<Value>, p: seq<Value>, q: seq<Value>) {
    multiset(p) == multiset(source) && multiset(q) == multiset(target) && Paired(p, q)
  }

  /** The members of a list whose URN is one of a set. */
  function Among(list: seq<Value>, urns: set<string>): seq<Value> {
    if list == [] then []
    else Among(list[..|list| - 1], urns) + if UrnOf(list[|list| - 1]) in urns then [list[|list| - 1]] else []
  }

  lemma {:induction false} AmongSplits(list: seq<Value>, urns: set<string>, urn: string)
    requires urn !in urns
    ensures multiset(Among(list, urns + {urn})) == multiset(Among(list, urns)) + multiset(Group(list, urn))
  {
    if list != [] { AmongSplits(list[..|list| - 1], urns, urn); }
  }

  lemma {:induction false} AmongAll(list: seq<Value>, urns: set<string>)
    requires Urns(list) <= urns
    ensures Among(list, urns) == list
  {
    if list != [] {
      var init, last := list[..|list| - 1], list[|list| - 1];
      assert list == init + [last];
      UrnsAppend(init, last);
      AmongAll(init, urns);
    }
  }

  lemma {:induction false} AmongNone(list: seq<Value>)
    ensures Among(list, {}) == []
  {
    if list != [] { AmongNone(list[..|list| - 1]); }
  }

  lemma SortedUrns(le: Order, list: seq<Value>, urn: string, i: nat)
    requires i < |Sort(le, Group(list, urn))|
    ensures UrnOf(Sort(le, Group(list, urn))[i]) == urn
  {
    var g := Group(list, urn);
    SortKeeps(le, g);
    assert Sort(le, g)[i] in multiset(Sort(le, g));
    GroupMembers(list, urn, Sort(le, g)[i]);
  }

  ghost predicate Paired(p: seq<Value>, q: seq<Value>) {
    |p| == |q| && forall i :: 0 <= i < |p| ==> UrnOf(p[i]) == UrnOf(q[i]) && Agrees(p[i], q[i])
  }

  lemma PairedAppend(p: seq<Value>, q: seq<Value>, g: seq<Value>, h: seq<Value>)
    requires Paired(p, q) && Paired(g, h)
    ensures Paired(p + g, q + h)
  {
    hide Agrees, UrnOf;
  }

  lemma GroupIsPaired(le: Order, source: seq<Value>, target: seq<Value>, urn: string)
    requires UrnAgrees(le, source, target, urn)
    ensures Paired(Sort(le, Group(source, urn)), Sort(le, Group(target, urn)))
  {
    hide Agrees, UrnOf;
    var g, h := Sort(le, Group(source, urn)), Sort(le, Group(target, urn));
    forall i | 0 <= i < |g| ensures UrnOf(g[i]) == UrnOf(h[i]) {
      SortedUrns(le, source, urn, i);
      SortedUrns(le, target, urn, i);
    }
  }

  lemma MergeAmong(le: Order, list: seq<Value>, p: seq<Value>, rest: set<string>, urn: string)
    requires multiset(p) == multiset(Among(list, rest)) && urn !in rest
    ensures multiset(p + Sort(le, Group(list, urn))) == multiset(Among(list, rest + {urn}))
  {
    SortKeeps(le, Group(list, urn));
    AmongSplits(list, rest, urn);
  }

  lemma {:induction false} PairingOfUrns(le: Order, source: seq<Value>, target: seq<Value>, urns: set<string>)
    returns (p: seq<Value>, q: seq<Value>)
    requires AllAgree(le, source, target, urns)
    ensures multiset(p) == multiset(Among(source, urns)) && multiset(q) == multiset(Among(target, urns))
    ensures Paired(p, q)
    decreases |urns|
  {
    hide Agrees, Sort, Group, Paired, UrnAgrees, Among;
    if urns == {} {
      p, q := [], [];
      AmongNone(source);
      AmongNone(target);
      NonePaired();
    } else {
      var urn :| urn in urns;
      var rest := urns - {urn};
      assert urns == rest + {urn};
      p, q := PairingOfUrns(le, source, target, rest);
      GroupIsPaired(le, source, target, urn);
      MergeAmong(le, source, p, rest, urn);
      MergeAmong(le, target, q, rest, urn);
      var g, h := Sort(le, Group(source, urn)), Sort(le, Group(target, urn));
      PairedAppend(p, q, g, h);
      p, q := p + g, q + h;
    }
  }

  lemma NonePaired()
    ensures Paired([], [])
  {
  }

  /** Whatever the order used and however often URNs repeat, a match gives a URN-preserving pairing. */
  lemma MatchGivesPairing(le: Order, source: seq<Value>, target: seq<Value>)
    requires ResourcesAgree(le, source, target)
    ensures exists p, q :: Pairing(source, target, p, q)
  {
    hide UrnAgrees, Agrees, Urns;
    var urns := Urns(source) + Urns(target);
    var p, q := PairingOfUrns(le, source, target, urns);
    AmongAll(source, urns);
    AmongAll(target, urns);
    assert Pairing(source, target, p, q);
  }

  // --------------------------------------------------------------------- permutations

  ghost predicate Ordered(le: Order, s: seq<Value>) {
    forall i, j :: 0 <= i < j < |s| ==> le(s[i], s[j])
  }

  lemma {:induction false} InsertOrders(le: Order, s: seq<Value>, x: Value)
    requires TotalOrder(le) && Ordered(le, s)
    ensures Ordered(le, InsertInto(le, s, x))
    ensures forall v <- InsertInto(le, s, x) :: v in s || v == x
  {
    if !(s == [] || le(s[|s| - 1], x)) {
      var init, last := s[..|s| - 1], s[|s| - 1];
      InsertOrders(le, init, x);
      var inserted := InsertInto(le, init, x);
      forall i | 0 <= i < |inserted| ensures le(inserted[i], last) {
        assert inserted[i] in inserted;
        if inserted[i] != x {
          var j :| 0 <= j < |init| && init[j] == inserted[i];
          assert le(s[j], s[|s| - 1]);
        }
      }
    } else if s != [] {
      forall i | 0 <= i < |s| ensures le(s[i], x) {
        assert i < |s| - 1 ==> le(s[i], s[|s| - 1]);
      }
    }
  }

  lemma {:induction false} SortOrders(le: Order, s: seq<Value>)
    requires TotalOrder(le)
    ensures Ordered(le, Sort(le, s))
  {
    if s != [] {
      SortOrders(le, s[..|s| - 1]);
      InsertOrders(le, Sort(le, s[..|s| - 1]), s[|s| - 1]);
    }
  }

  /** A strict total order leaves one way to sort. */
  lemma {:induction false} OrderedIsUnique(le: Order, s: seq<Value>, t: seq<Value>)
    requires TotalOrder(le) && Ordered(le, s) && Ordered(le, t) && multiset(s) == multiset(t)
    ensures s == t
  {
    hide TotalOrder, Ordered;
    SameSize(s, t);
    if s != [] {
      var x, y := s[|s| - 1], t[|t| - 1];
      LastIsGreatest(le, s, t);
      LastIsGreatest(le, t, s);
      BothWays(le, x, y);
      SameInits(s, t);
      InitIsOrdered(le, s);
      InitIsOrdered(le, t);
      OrderedIsUnique(le, s[..|s| - 1], t[..|t| - 1]);
      assert s == s[..|s| - 1] + [x] && t == t[..|t| - 1] + [y];
    }
  }

  lemma InitIsOrdered(le: Order, s: seq<Value>)
    requires Ordered(le, s) && s != []
    ensures Ordered(le, s[..|s| - 1])
  {
  }

  lemma DropLast(s: seq<Value>)
    requires s != []
    ensures multiset(s[..|s| - 1]) == multiset(s) - multiset{s[|s| - 1]}
  {
    assert s == s[..|s| - 1] + [s[|s| - 1]];
  }

  lemma SameInits(s: seq<Value>, t: seq<Value>)
    requires s != [] && t != [] && multiset(s) == multiset(t) && s[|s| - 1] == t[|t| - 1]
    ensures multiset(s[..|s| - 1]) == multiset(t[..|t| - 1])
  {
    DropLast(s);
    DropLast(t);
  }

  lemma SameSize(s: seq<Value>, t: seq<Value>)
    requires multiset(s) == multiset(t)
    ensures |s| == |t|
  {
    assert |multiset(s)| == |s| && |multiset(t)| == |t|;
  }

  lemma LastIsGreatest(le: Order, s: seq<Value>, t: seq<Value>)
    requires TotalOrder(le) && Ordered(le, s) && multiset(s) == multiset(t) && s != [] && t != []
    ensures le(t[|t| - 1], s[|s| - 1])
  {
    var y := t[|t| - 1];
    assert y in multiset(t);
    assert y in s;
    var i :| 0 <= i < |s| && s[i] == y;
    if i < |s| - 1 { assert le(s[i], s[|s| - 1]); }
  }

  lemma BothWays(le: Order, x: Value, y: Value)
    requires TotalOrder(le) && le(x, y) && le(y, x)
    ensures x == y
  {
  }

  lemma {:induction false} GroupCounts(list: seq<Value>, urn: string, v: Value)
    ensures multiset(Group(list, urn))[v] == if UrnOf(v) == urn then multiset(list)[v] else 0
  {
    hide UrnOf;
    if list != [] {
      var init, last := list[..|list| - 1], list[|list| - 1];
      GroupCounts(init, urn, v);
      assert list == init + [last];
      assert multiset(list) == multiset(init) + multiset{last};
      assert UrnOf(last) != urn ==> Group(list, urn) == Group(init, urn);
    }
  }

  lemma AgreesWithItself(v: Value)
    requires Clean(v)
    ensures Agrees(v, v)
  {
  }

  lemma SortedGroupsAreSame(le: Order, source: seq<Value>, target: seq<Value>, urn: string)
    requires TotalOrder(le) && multiset(source) == multiset(target)
    ensures Sort(le, Group(source, urn)) == Sort(le, Group(target, urn))
    ensures |Group(source, urn)| == |Group(target, urn)|
  {
    var g, h := Group(source, urn), Group(target, urn);
    assert multiset(g) == multiset(h) by {
      forall v ensures multiset(g)[v] == multiset(h)[v] {
        GroupCounts(source, urn, v);
        GroupCounts(target, urn, v);
      }
    }
    SortKeeps(le, g);
    SortKeeps(le, h);
    SortOrders(le, g);
    SortOrders(le, h);
    OrderedIsUnique(le, Sort(le, g), Sort(le, h));
  }

  /** Any permutation of a fully decrypted resource list matches it. */
  lemma PermutationMatches(le: Order, source: seq<Value>, target: seq<Value>)
    requires TotalOrder(le) && multiset(source) == multiset(target) && AllClean(source)
    ensures ResourcesAgree(le, source, target)
  {
    hide Agrees, Clean, TotalOrder;
    forall urn | urn in Urns(source) + Urns(target) ensures UrnAgrees(le, source, target, urn) {
      SortedGroupsAreSame(le, source, target, urn);
      AbsentGroup(source, urn);
      AbsentGroup(target, urn);
      var g := Sort(le, Group(source, urn));
      SortKeeps(le, Group(source, urn));
      forall i | 0 <= i < |g| ensures Agrees(g[i], g[i]) {
        assert g[i] in multiset(g);
        GroupMembers(source, urn, g[i]);
        assert g[i] in source;
        AgreesWithItself(g[i]);
      }
    }
  }

  // --------------------------------------------------------------------- when a pairing is found

  function Normals(s: seq<Value>): (r: seq<Value>)
    ensures |r| == |s| && forall i :: 0 <= i < |s| ==> r[i] == Normal(s[i])
  {
    seq(|s|, i requires 0 <= i < |s| => Normal(s[i]))
  }

  /** Two resources that agree have one normal form. */
  lemma AgreeingAreAlike(a: Value, b: Value)
    requires Agrees(a, b)
    ensures Normal(a) == Normal(b)
  {
    if a.Obj? && b.Obj? {
      forall k: string
        ensures k in Normal(a).members <==> k in Normal(b).members
        ensures k in Normal(a).members ==> Normal(a).members[k] == Normal(b).members[k]
      {
        if k in a.members.Keys + b.members.Keys { assert MemberAgrees(a.members, b.members, k); }
      }
      assert Normal(a).members == Normal(b).members;
    }
  }

  function Without(s: seq<Value>, i: nat): seq<Value>
    requires i < |s|
  {
    s[..i] + s[i + 1..]
  }

  lemma TakenOut(s: seq<Value>, i: nat)
    requires i < |s|
    ensures multiset(Without(s, i)) == multiset(s) - multiset{s[i]}
  {
    assert s == s[..i] + [s[i]] + s[i + 1..];
  }

  lemma NormalTakenOut(s: seq<Value>, i: nat)
    requires i < |s|
    ensures multiset(Normals(s)) == multiset(Normals(Without(s, i))) + multiset{Normal(s[i])}
  {
    hide Normal;
    var r := Normals(s);
    assert r == r[..i] + [r[i]] + r[i + 1..];
    assert Normals(Without(s, i)) == r[..i] + r[i + 1..];
  }

  lemma {:induction false} NormalsOfPermutation(s: seq<Value>, t: seq<Value>)
    requires multiset(s) == multiset(t)
    ensures multiset(Normals(s)) == multiset(Normals(t))
    decreases |s|
  {
    hide Normal, Normals, Without;
    SameSize(s, t);
    if s == [] {
      assert t == [];
    } else {
      assert s[0] in multiset(t);
      var i :| 0 <= i < |t| && t[i] == s[0];
      TakenOut(s, 0);
      TakenOut(t, i);
      ShorterWithout(s, 0);
      NormalsOfPermutation(Without(s, 0), Without(t, i));
      NormalTakenOut(s, 0);
      NormalTakenOut(t, i);
    }
  }

  lemma ShorterWithout(s: seq<Value>, i: nat)
    requires i < |s|
    ensures |Without(s, i)| == |s| - 1
  {
  }

  lemma SortedNormalsAreOrdered(sig: Order, s: seq<Value>)
    requires TotalOrder(sig)
    ensures Ordered(sig, Normals(Sort(PairingOrder(sig), s)))
  {
    hide Normal;
    var le := PairingOrder(sig);
    PairingOrderIsTotal(sig);
    SortOrders(le, s);
    var sorted := Sort(le, s);
    forall i, j | 0 <= i < j < |sorted| ensures sig(Normals(sorted)[i], Normals(sorted)[j]) {
      assert le(sorted[i], sorted[j]);
    }
  }

  /** When two groups can be paired, their sorted places hold resources of one normal form. */
  lemma SortedAlike(sig: Order, g: seq<Value>, h: seq<Value>, p: seq<Value>, q: seq<Value>)
    requires TotalOrder(sig) && multiset(p) == multiset(g) && multiset(q) == multiset(h) && PairsAgree(p, q)
    ensures Normals(Sort(PairingOrder(sig), g)) == Normals(Sort(PairingOrder(sig), h))
  {
    hide Normal, Agrees, TotalOrder, PairingOrder;
    var le := PairingOrder(sig);
    forall i | 0 <= i < |p| ensures Normals(p)[i] == Normals(q)[i] { AgreeingAreAlike(p[i], q[i]); }
    assert Normals(p) == Normals(q);
    SortKeeps(le, g);
    SortKeeps(le, h);
    NormalsOfPermutation(Sort(le, g), p);
    NormalsOfPermutation(Sort(le, h), q);
    SortedNormalsAreOrdered(sig, g);
    SortedNormalsAreOrdered(sig, h);
    OrderedIsUnique(sig, Normals(Sort(le, g)), Normals(Sort(le, h)));
  }

  /** Every resource of a paired group has a partner that agrees with it. */
  lemma Partner(g: seq<Value>, h: seq<Value>, p: seq<Value>, q: seq<Value>, x: Value) returns (y: Value)
    requires multiset(p) == multiset(g) && multiset(q) == multiset(h) && PairsAgree(p, q) && x in g
    ensures y in h && Agrees(x, y)
  {
    hide Agrees;
    assert x in multiset(p);
    var i :| 0 <= i < |p| && p[i] == x;
    y := q[i];
    assert y in multiset(q);
  }

  /**
   * Two resources of one normal form that cannot agree: they spell a zero member differently, or
   * one is a secret.
   */
  predicate Clash(x: Value, y: Value) {
    if x.Obj? && y.Obj? then
      exists k <- x.members :: k in y.members && IsZero(x.members[k]) && IsZero(y.members[k])
                               && x.members[k] != y.members[k]
    else x != y
  }

  /** Some place of the sorted groups of a URN holds resources that clash. */
  ghost predicate Clashing(sig: Order, source: seq<Value>, target: seq<Value>) {
    exists urn: string, i: nat :: ClashesAt(sig, source, target, urn, i)
  }

  predicate ClashesAt(sig: Order, source: seq<Value>, target: seq<Value>, urn: string, i: nat) {
    var g, h := Sort(PairingOrder(sig), Group(source, urn)), Sort(PairingOrder(sig), Group(target, urn));
    i < |g| && i < |h| && Clash(g[i], h[i])
  }

  /** Without a clash, alike resources agree if each agrees with something. */
  lemma AlikeAgree(x: Value, y: Value, x': Value)
    requires Normal(x) == Normal(y) && Agrees(x, x') && !Clash(x, y)
    ensures Agrees(x, y)
  {
    if x.Obj? && y.Obj? {
      AgreeingAreAlike(x, x');
      forall k | k in x.members.Keys + y.members.Keys ensures MemberAgrees(x.members, y.members, k) {
        AlikeAt(x, y, k);
        if k in x.members && !IsZero(x.members[k]) { CleanMember(x, x', k); }
        if k in x.members && IsZero(x.members[k]) { ZeroIsClean(x.members[k]); }
      }
    } else {
      assert x == y;
      SelfAgrees(x, x');
    }
  }

  lemma ZeroIsClean(v: Value)
    requires IsZero(v)
    ensures Clean(v)
  {
  }

  lemma AlikeAt(x: Value, y: Value, k: string)
    requires x.Obj? && y.Obj? && Normal(x) == Normal(y)
    ensures k in x.members && !IsZero(x.members[k]) ==> k in y.members && y.members[k] == x.members[k]
    ensures k in y.members && !IsZero(y.members[k]) ==> k in x.members && y.members[k] == x.members[k]
  {
    assert k in Normal(x).members <==> k in Normal(y).members;
  }

  /** A non-zero member of a resource that agrees with another is free of unverified secrets. */
  lemma CleanMember(x: Value, x': Value, k: string)
    requires x.Obj? && Agrees(x, x') && k in x.members && !IsZero(x.members[k])
    ensures Clean(x.members[k])
  {
    if x'.Obj? { assert MemberAgrees(x.members, x'.members, k); }
  }

  lemma SelfAgrees(x: Value, x': Value)
    requires !x.Obj? && Agrees(x, x')
    ensures Agrees(x, x)
  {
  }

  lemma AgreeingDoNotClash(x: Value, y: Value)
    requires Agrees(x, y)
    ensures !Clash(x, y)
  {
    if x.Obj? && y.Obj? {
      forall k | k in x.members && k in y.members ensures x.members[k] == y.members[k] {
        assert MemberAgrees(x.members, y.members, k);
      }
    }
  }

  lemma SortedMember(le: Order, g: seq<Value>, i: nat)
    requires i < |Sort(le, g)|
    ensures Sort(le, g)[i] in g
  {
    SortKeeps(le, g);
    assert Sort(le, g)[i] in multiset(Sort(le, g));
    assert Sort(le, g)[i] in multiset(g);
  }

  /** A group that can be paired agrees in sorted order unless two resources clash there. */
  lemma PairedGroupAgrees(sig: Order, g: seq<Value>, h: seq<Value>, p: seq<Value>, q: seq<Value>)
    requires TotalOrder(sig) && multiset(p) == multiset(g) && multiset(q) == multiset(h) && PairsAgree(p, q)
    requires var le := PairingOrder(sig);
             forall i :: 0 <= i < |Sort(le, g)| && i < |Sort(le, h)| ==> !Clash(Sort(le, g)[i], Sort(le, h)[i])
    ensures PairsAgree(Sort(PairingOrder(sig), g), Sort(PairingOrder(sig), h))
    ensures |g| == |h|
  {
    hide Normal, Agrees, TotalOrder, PairingOrder, Clash, PairsAgree;
    var le := PairingOrder(sig);
    SortedAlike(sig, g, h, p, q);
    var sg, sh := Sort(le, g), Sort(le, h);
    assert |Normals(sg)| == |Normals(sh)|;
    SortKeeps(le, g);
    SortKeeps(le, h);
    forall i | 0 <= i < |sg| ensures Agrees(sg[i], sh[i]) {
      SortedMember(le, g, i);
      var y := Partner(g, h, p, q, sg[i]);
      assert Normals(sg)[i] == Normals(sh)[i];
      AlikeAgree(sg[i], sh[i], y);
    }
    AllPairsAgree(sg, sh);
  }

  lemma AllPairsAgree(p: seq<Value>, q: seq<Value>)
    requires |p| == |q| && forall i :: 0 <= i < |p| ==> Agrees(p[i], q[i])
    ensures PairsAgree(p, q)
  {
  }

  lemma {:induction false} PairedGroups(p: seq<Value>, q: seq<Value>, urn: string)
    requires Paired(p, q)
    ensures PairsAgree(Group(p, urn), Group(q, urn))
  {
    hide Agrees, UrnOf;
    if p != [] {
      var n := |p| - 1;
      PairedGroups(p[..n], q[..n], urn);
      assert UrnOf(p[n]) == UrnOf(q[n]) && Agrees(p[n], q[n]);
    }
  }

  lemma SameGroups(s: seq<Value>, t: seq<Value>, urn: string)
    requires multiset(s) == multiset(t)
    ensures multiset(Group(s, urn)) == multiset(Group(t, urn))
  {
    hide UrnOf, Group;
    forall v ensures multiset(Group(s, urn))[v] == multiset(Group(t, urn))[v] {
      GroupCounts(s, urn, v);
      GroupCounts(t, urn, v);
    }
  }

  lemma PairedUrn(sig: Order, source: seq<Value>, target: seq<Value>, p: seq<Value>, q: seq<Value>, urn: string)
    requires TotalOrder(sig) && Pairing(source, target, p, q) && !Clashing(sig, source, target)
    requires urn in Urns(source) + Urns(target)
    ensures UrnAgrees(PairingOrder(sig), source, target, urn)
  {
    hide Agrees, TotalOrder, PairingOrder, Clash, PairsAgree, Paired, Sort, Group, Urns;
    var le := PairingOrder(sig);
    var g, h := Group(source, urn), Group(target, urn);
    SameGroups(p, source, urn);
    SameGroups(q, target, urn);
    PairedGroups(p, q, urn);
    forall i: nat | i < |Sort(le, g)| && i < |Sort(le, h)| ensures !Clash(Sort(le, g)[i], Sort(le, h)[i]) {
      assert !ClashesAt(sig, source, target, urn, i);
    }
    PairedGroupAgrees(sig, g, h, Group(p, urn), Group(q, urn));
    AbsentGroup(source, urn);
    AbsentGroup(target, urn);
  }

  lemma AgreeingNeverClash(sig: Order, source: seq<Value>, target: seq<Value>)
    requires ResourcesAgree(PairingOrder(sig), source, target)
    ensures !Clashing(sig, source, target)
  {
    hide Agrees, PairingOrder, Clash, Urns, Group;
    var le := PairingOrder(sig);
    forall urn: string, i: nat ensures !ClashesAt(sig, source, target, urn, i) {
      var g, h := Group(source, urn), Group(target, urn);
      AbsentGroup(source, urn);
      SortKeeps(le, g);
      if i < |Sort(le, g)| && i < |Sort(le, h)| {
        assert g != [];
        assert UrnAgrees(le, source, target, urn);
        AgreeingDoNotClash(Sort(le, g)[i], Sort(le, h)[i]);
      }
    }
  }

  /**
   * The resource comparison, repeated URNs included: two lists match exactly when they pair up and
   * no place of the sorted groups holds two resources that clash.
   */
  lemma MatchIsPairingWithoutClash(sig: Order, source: seq<Value>, target: seq<Value>)
    requires TotalOrder(sig)
    ensures ResourcesAgree(PairingOrder(sig), source, target) <==>
            (exists p, q :: Pairing(source, target, p, q)) && !Clashing(sig, source, target)
  {
    hide Agrees, TotalOrder, PairingOrder, Urns, UrnAgrees, Clashing, Pairing;
    if ResourcesAgree(PairingOrder(sig), source, target) {
      MatchGivesPairing(PairingOrder(sig), source, target);
      AgreeingNeverClash(sig, source, target);
    } else if (exists p, q :: Pairing(source, target, p, q)) && !Clashing(sig, source, target) {
      var p, q :| Pairing(source, target, p, q);
      forall urn | urn in Urns(source) + Urns(target) ensures UrnAgrees(PairingOrder(sig), source, target, urn) {
        PairedUrn(sig, source, target, p, q, urn);
      }
    }
  }

  predicate Alike(x: Value, y: Value) {
    UrnOf(x) == UrnOf(y) && Normal(x) == Normal(y)
  }

  /** Of the resources of one URN and one normal form, at least one side holds only copies of one. */
  predicate TiesOneSided(source: seq<Value>, target: seq<Value>) {
    forall x <- source, x' <- source, y <- target, y' <- target ::
      Alike(x, x') && Alike(x, y) && Alike(x, y') ==> x == x' || y == y'
  }

  lemma NoClashAt(sig: Order, source: seq<Value>, target: seq<Value>, p: seq<Value>, q: seq<Value>, urn: string, i: nat)
    requires TotalOrder(sig) && Pairing(source, target, p, q) && TiesOneSided(source, target)
    ensures !ClashesAt(sig, source, target, urn, i)
  {
    hide Agrees, TotalOrder, PairingOrder, Clash, PairsAgree, Paired, Normal, Sort, Group, UrnOf;
    var le := PairingOrder(sig);
    var g, h := Group(source, urn), Group(target, urn);
    SameGroups(p, source, urn);
    SameGroups(q, target, urn);
    PairedGroups(p, q, urn);
    var sg, sh := Sort(le, g), Sort(le, h);
    if i < |sg| && i < |sh| {
      SortedAlike(sig, g, h, Group(p, urn), Group(q, urn));
      assert Normals(sg)[i] == Normals(sh)[i];
      SortedMember(le, g, i);
      SortedMember(le, h, i);
      var y := Partner(g, h, Group(p, urn), Group(q, urn), sg[i]);
      var x := PartnerOf(g, h, Group(p, urn), Group(q, urn), sh[i]);
      AgreeingAreAlike(sg[i], y);
      AgreeingAreAlike(x, sh[i]);
      GroupMembers(source, urn, sg[i]);
      GroupMembers(source, urn, x);
      GroupMembers(target, urn, sh[i]);
      GroupMembers(target, urn, y);
      assert Alike(sg[i], x) && Alike(sg[i], sh[i]) && Alike(sg[i], y);
      if sg[i] == x { AgreeingDoNotClash(x, sh[i]); } else { AgreeingDoNotClash(sg[i], y); }
    }
  }

  lemma PartnerOf(g: seq<Value>, h: seq<Value>, p: seq<Value>, q: seq<Value>, y: Value) returns (x: Value)
    requires multiset(p) == multiset(g) && multiset(q) == multiset(h) && PairsAgree(p, q) && y in h
    ensures x in g && Agrees(x, y)
  {
    hide Agrees;
    assert y in multiset(q);
    var i :| 0 <= i < |q| && q[i] == y;
    x := p[i];
    assert x in multiset(p);
  }

  /**
   * When ties of normal form are one-sided, so in particular when the normal forms under each URN
   * differ on each side, two lists match exactly when they pair up.
   */
  lemma OneSidedTiesMatch(sig: Order, source: seq<Value>, target: seq<Value>)
    requires TotalOrder(sig) && TiesOneSided(source, target)
    ensures ResourcesAgree(PairingOrder(sig), source, target) <==> exists p, q :: Pairing(source, target, p, q)
  {
    hide TotalOrder, PairingOrder, ResourcesAgree, ClashesAt, TiesOneSided, Pairing;
    MatchIsPairingWithoutClash(sig, source, target);
    if exists p, q :: Pairing(source, target, p, q) {
      var p, q :| Pairing(source, target, p, q);
      forall urn: string, i: nat ensures !ClashesAt(sig, source, target, urn, i) {
        NoClashAt(sig, source, target, p, q, urn, i);
      }
    }
  }

  // --------------------------------------------------------------------- a pairing the sort misses

  function Marked(marker: Value): Value {
    Obj(map["urn" := Str("u"), "marker" := marker])
  }

  const UNMARKED := Obj(map["urn" := Str("u")])

  /**
   * The converse of MatchGivesPairing fails for repeated URNs: with signatures in their usual
   * order (a `false` marker before a `null` one before none), the two sides below pair up, yet
   * the sorted groups do not.
   */
  lemma PairingCanBeMissed(sig: Order)
    requires TotalOrder(sig)
    requires sig(Marked(Bool(false)), Marked(Null)) && sig(Marked(Null), UNMARKED)
    ensures var source, target := [Marked(Bool(false)), Marked(Null)], [UNMARKED, Marked(Null)];
            && Pairing(source, target, source, target)
            && !ResourcesAgree(PairingOrder(sig), source, target)
  {
    hide TotalOrder, Agrees, UrnOf, Sort, Group, Urns, Normal;
    var le := PairingOrder(sig);
    var a, n, z := Marked(Bool(false)), Marked(Null), UNMARKED;
    MarkersTie();
    PairingOrderIsTotal(sig);
    MarkersAgree();
    MarkedUrns();
    TwoInGroup(a, n);
    TwoInGroup(z, n);
    SortTwo(le, a, n);
    SortTwo(le, z, n);
    if le(z, n) { BothWays(le, z, n); }
    assert Group([a, n], "u") == [a, n] && Group([z, n], "u") == [z, n];
    assert Sort(le, [a, n]) == [a, n] && Sort(le, [z, n]) == [n, z];
    assert !PairsAgree([a, n], [n, z]) by { assert !Agrees([a, n][0], [n, z][0]); }
    assert !UrnAgrees(le, [a, n], [z, n], "u");
  }

  lemma MarkersTie()
    ensures Normal(Marked(Bool(false))) == Normal(Marked(Null)) == Normal(UNMARKED)
  {
    assert Normal(Marked(Bool(false))).members == Normal(UNMARKED).members;
    assert Normal(Marked(Null)).members == Normal(UNMARKED).members;
  }

  lemma MarkersAgree()
    ensures Agrees(Marked(Bool(false)), UNMARKED) && Agrees(Marked(Null), Marked(Null))
    ensures !Agrees(Marked(Bool(false)), Marked(Null))
    ensures Marked(Null) != UNMARKED
  {
    var a, n, z := Marked(Bool(false)), Marked(Null), UNMARKED;
    assert a.members["marker"] == Bool(false) && n.members["marker"] == Null && "marker" !in z.members;
    assert !MemberAgrees(a.members, n.members, "marker");
  }

  lemma MarkedUrns()
    ensures UrnOf(Marked(Bool(false))) == UrnOf(Marked(Null)) == UrnOf(UNMARKED) == "u"
    ensures "u" in Urns([Marked(Bool(false)), Marked(Null)])
  {
    assert Marked(Null) in [Marked(Bool(false)), Marked(Null)];
  }

  lemma TwoInGroup(x: Value, y: Value)
    requires UrnOf(x) == UrnOf(y) == "u"
    ensures Group([x, y], "u") == [x, y]
  {
    GroupAppend([x], y, "u");
    GroupAppend([], x, "u");
    assert [x] + [y] == [x, y] && [] + [x] == [x];
  }

  lemma SortTwo(le: Order, x: Value, y: Value)
    ensures Sort(le, [x, y]) == if le(x, y) then [x, y] else [y, x]
  {
    assert [x, y][..1] == [x] && [x][..0] == [];
    assert Sort(le, []) == [];
    assert InsertInto(le, [], x) == [x] && InsertInto(le, [], y) == [y];
    assert Sort(le, [x]) == [x];
    assert InsertInto(le, [x], y) == if le(x, y) then [x, y] else [y, x];
  }
}
