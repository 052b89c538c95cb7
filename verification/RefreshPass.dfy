/**
 * `rebuildDependencies`: after a refresh, references to resources that do not stand earlier in
 * the list are pruned, and parents that are not listed are dropped, in place.
 *
 * One object may stand at two places of the list. It is then pruned twice, so what counts for
 * both places is what had been listed before the first of them.
 */
module RefreshPass {
  import opened Wrappers
  import opened JournalTypes

  function Keep(urns: seq<string>, seen: set<string>): (r: seq<string>)
    ensures forall u :: u in r <==> u in urns && u in seen
  {
    if urns == [] then []
    else (if urns[0] in seen then [urns[0]] else []) + Keep(urns[1..], seen)
  }

  function KeepAll(urns: Option<seq<string>>, seen: set<string>): Option<seq<string>> {
    if urns.Some? then Some(Keep(urns.value, seen)) else None
  }

  function KeepProperties(m: Option<map<string, seq<string>>>, seen: set<string>): Option<map<string, seq<string>>> {
    if m.Some? then Some(map p | p in m.value && Keep(m.value[p], seen) != [] :: Keep(m.value[p], seen)) else None
  }

  /** An absent or empty reference is no reference. */
  predicate Names(urn: Option<string>) {
    urn.Some? && urn.value != ""
  }

  /** What one visit leaves of a resource when `seen` has been listed before it. */
  function Prune(r: Resource, seen: set<string>): Resource {
    r.(dependencies := KeepAll(r.dependencies, seen),
       propertyDependencies := KeepProperties(r.propertyDependencies, seen),
       replaceWith := KeepAll(r.replaceWith, seen),
       deletedWith := if Names(r.deletedWith) && r.deletedWith.value !in seen then None else r.deletedWith)
  }

  function DropDangling(r: Resource, listed: set<string>): Resource {
    if Names(r.parent) && r.parent.value !in listed then r.(parent := None) else r
  }

  function Urns(rs: seq<Resource>): set<string> {
    set i | 0 <= i < |rs| :: rs[i].urn
  }

  /** The first place of the list that holds the same object as place `i`. */
  function First<T(==)>(ids: seq<T>, i: nat): (f: nat)
    requires i < |ids|
    ensures f <= i && ids[f] == ids[i] && forall j :: 0 <= j < f ==> ids[j] != ids[i]
  {
    FirstFrom(ids, i, 0)
  }

  function FirstFrom<T(==)>(ids: seq<T>, i: nat, from: nat): (f: nat)
    requires from <= i < |ids| && forall j :: 0 <= j < from ==> ids[j] != ids[i]
    ensures f <= i && ids[f] == ids[i] && forall j :: 0 <= j < f ==> ids[j] != ids[i]
    decreases i - from
  {
    if ids[from] == ids[i] then from else FirstFrom(ids, i, from + 1)
  }

  /** The list after the pass; `ids` says which places hold one and the same object. */
  function Pass<T(==)>(ids: seq<T>, rs: seq<Resource>): (r: seq<Resource>)
    requires |ids| == |rs|
    ensures |r| == |rs| && forall i :: 0 <= i < |rs| ==> r[i].urn == rs[i].urn
  {
    seq(|rs|, i requires 0 <= i < |rs| => DropDangling(Prune(rs[i], Urns(rs[..First(ids, i)])), Urns(rs)))
  }

  // ------------------------------------------------------------- what it achieves

  /** Every reference of `r` names one of `seen`, and no property lists nothing. */
  ghost predicate RefersOnlyTo(r: Resource, seen: set<string>) {
    && (r.dependencies.Some? ==> forall u <- r.dependencies.value :: u in seen)
    && (r.propertyDependencies.Some? ==>
          forall p <- r.propertyDependencies.value ::
            r.propertyDependencies.value[p] != [] && forall u <- r.propertyDependencies.value[p] :: u in seen)
    && (r.replaceWith.Some? ==> forall u <- r.replaceWith.value :: u in seen)
    && (Names(r.deletedWith) ==> r.deletedWith.value in seen)
  }

  /** References point strictly backwards, and every parent is in the list. */
  ghost predicate Closed(rs: seq<Resource>) {
    forall i :: 0 <= i < |rs| ==>
      RefersOnlyTo(rs[i], Urns(rs[..i])) && (Names(rs[i].parent) ==> rs[i].parent.value in Urns(rs))
  }

  lemma SameUrns(rs: seq<Resource>, ts: seq<Resource>, n: nat)
    requires n <= |rs| && n <= |ts| && forall i :: 0 <= i < n ==> rs[i].urn == ts[i].urn
    ensures Urns(rs[..n]) == Urns(ts[..n])
  {
    var a, b := rs[..n], ts[..n];
    assert forall i :: 0 <= i < n ==> a[i].urn == b[i].urn;
    assert forall u :: u in Urns(a) ==> exists i :: 0 <= i < n && a[i].urn == u && b[i].urn == u;
    assert forall u :: u in Urns(b) ==> exists i :: 0 <= i < n && b[i].urn == u && a[i].urn == u;
  }

  lemma UrnsGrow(rs: seq<Resource>, m: nat, n: nat)
    requires m <= n <= |rs|
    ensures Urns(rs[..m]) <= Urns(rs[..n]) <= Urns(rs)
  {
    assert forall i :: 0 <= i < m ==> rs[..m][i] == rs[..n][i];
  }

  lemma {:induction false} KeepsAllSeen(urns: seq<string>, seen: set<string>)
    requires forall u <- urns :: u in seen
    ensures Keep(urns, seen) == urns
  {
    if urns != [] { KeepsAllSeen(urns[1..], seen); }
  }

  lemma PruneRefers(r: Resource, seen: set<string>)
    ensures RefersOnlyTo(Prune(r, seen), seen)
  {
    var p := Prune(r, seen);
    if r.propertyDependencies.Some? {
      forall k <- p.propertyDependencies.value
        ensures p.propertyDependencies.value[k] != []
                && forall u <- p.propertyDependencies.value[k] :: u in seen
      {
      }
    }
  }

  /** A resource that refers to nothing else is left as it is. */
  lemma PruneKeeps(r: Resource, seen: set<string>)
    requires RefersOnlyTo(r, seen)
    ensures Prune(r, seen) == r
  {
    if r.dependencies.Some? { KeepsAllSeen(r.dependencies.value, seen); }
    if r.replaceWith.Some? { KeepsAllSeen(r.replaceWith.value, seen); }
    if r.propertyDependencies.Some? {
      var m := r.propertyDependencies.value;
      forall p <- m ensures Keep(m[p], seen) == m[p] {
        KeepsAllSeen(m[p], seen);
      }
      assert KeepProperties(r.propertyDependencies, seen).value == m;
    }
  }

  lemma RefersMonotone(r: Resource, seen: set<string>, more: set<string>)
    requires RefersOnlyTo(r, seen) && seen <= more
    ensures RefersOnlyTo(r, more)
  {
  }

  /** After the pass references point strictly backwards and parents are listed. */
  lemma PassCloses<T>(ids: seq<T>, rs: seq<Resource>)
    requires |ids| == |rs|
    ensures Closed(Pass(ids, rs))
  {
    var ts := Pass(ids, rs);
    assert rs[..|rs|] == rs && ts[..|ts|] == ts;
    SameUrns(rs, ts, |rs|);
    forall i | 0 <= i < |ts|
      ensures RefersOnlyTo(ts[i], Urns(ts[..i])) && (Names(ts[i].parent) ==> ts[i].parent.value in Urns(ts))
    {
      var seen := Urns(rs[..First(ids, i)]);
      PruneRefers(rs[i], seen);
      UrnsGrow(rs, First(ids, i), i);
      SameUrns(rs, ts, i);
      RefersMonotone(ts[i], seen, Urns(ts[..i]));
    }
  }

  /** A closed list in which each object holds one value is left as it is. */
  lemma PassKeepsClosed<T>(ids: seq<T>, rs: seq<Resource>)
    requires |ids| == |rs| && Closed(rs)
    requires forall i, j :: 0 <= i < |ids| && 0 <= j < |ids| && ids[i] == ids[j] ==> rs[i] == rs[j]
    ensures Pass(ids, rs) == rs
  {
    forall i | 0 <= i < |rs| ensures Pass(ids, rs)[i] == rs[i] {
      var f := First(ids, i);
      assert rs[f] == rs[i];
      PruneKeeps(rs[i], Urns(rs[..f]));
    }
  }

  /** The pass is idempotent on every list, whatever objects it shares. */
  lemma PassIsIdempotent<T>(ids: seq<T>, rs: seq<Resource>)
    requires |ids| == |rs|
    ensures Pass(ids, Pass(ids, rs)) == Pass(ids, rs)
  {
    hide Prune, Urns, First;
    var ts := Pass(ids, rs);
    assert rs[..|rs|] == rs && ts[..|ts|] == ts;
    SameUrns(rs, ts, |rs|);
    forall i | 0 <= i < |rs| ensures Pass(ids, ts)[i] == ts[i] {
      var seen := Urns(rs[..First(ids, i)]);
      SameUrns(rs, ts, First(ids, i));
      PruneRefers(rs[i], seen);
      DroppingKeepsRefers(Prune(rs[i], seen), seen, Urns(rs));
      PruneKeeps(ts[i], seen);
    }
  }

  lemma DroppingKeepsRefers(r: Resource, seen: set<string>, listed: set<string>)
    requires RefersOnlyTo(r, seen)
    ensures RefersOnlyTo(DropDangling(r, listed), seen)
    ensures DropDangling(DropDangling(r, listed), listed) == DropDangling(r, listed)
  {
  }

  // ------------------------------------------------------------- what it takes away

  /** `a` is `b` with some elements left out. */
  ghost predicate Sublist(a: seq<string>, b: seq<string>) {
    a == [] || (b != [] && ((a[0] == b[0] && Sublist(a[1..], b[1..])) || Sublist(a, b[1..])))
  }

  lemma {:induction false} KeepIsSublist(urns: seq<string>, seen: set<string>)
    ensures Sublist(Keep(urns, seen), urns)
  {
    if urns != [] {
      KeepIsSublist(urns[1..], seen);
      var rest := Keep(urns[1..], seen);
      if urns[0] in seen {
        assert Keep(urns, seen) == [urns[0]] + rest && ([urns[0]] + rest)[1..] == rest;
      } else {
        assert Keep(urns, seen) == rest;
        assert Sublist(rest, urns[1..]);
      }
    }
  }

  ghost predicate SomeFewer(a: Option<seq<string>>, b: Option<seq<string>>) {
    if b.Some? then a.Some? && Sublist(a.value, b.value) else a.None?
  }

  /** `t` is `r` but for references left out: lists shortened in order, properties and single references dropped. */
  ghost predicate OnlyFewer(t: Resource, r: Resource) {
    && t == r.(parent := t.parent, dependencies := t.dependencies, propertyDependencies := t.propertyDependencies,
               replaceWith := t.replaceWith, deletedWith := t.deletedWith)
    && (t.parent == r.parent || t.parent == None)
    && (t.deletedWith == r.deletedWith || t.deletedWith == None)
    && SomeFewer(t.dependencies, r.dependencies)
    && SomeFewer(t.replaceWith, r.replaceWith)
    && (t.propertyDependencies.Some? <==> r.propertyDependencies.Some?)
    && (r.propertyDependencies.Some? ==>
          forall p <- t.propertyDependencies.value ::
            && p in r.propertyDependencies.value
            && Sublist(t.propertyDependencies.value[p], r.propertyDependencies.value[p]))
  }

  lemma PruneOnlyDrops(r: Resource, seen: set<string>)
    ensures OnlyFewer(Prune(r, seen), r)
  {
    hide Keep, Sublist;
    if r.dependencies.Some? { KeepIsSublist(r.dependencies.value, seen); }
    if r.replaceWith.Some? { KeepIsSublist(r.replaceWith.value, seen); }
    if r.propertyDependencies.Some? {
      forall p <- r.propertyDependencies.value
        ensures Sublist(Keep(r.propertyDependencies.value[p], seen), r.propertyDependencies.value[p])
      {
        KeepIsSublist(r.propertyDependencies.value[p], seen);
      }
    }
  }

  /** The pass adds nothing: every place keeps its resource, with references left out. */
  lemma PassOnlyDrops<T>(ids: seq<T>, rs: seq<Resource>, i: nat)
    requires |ids| == |rs| && i < |rs|
    ensures OnlyFewer(Pass(ids, rs)[i], rs[i])
  {
    hide Prune, Urns, First, Sublist;
    PruneOnlyDrops(rs[i], Urns(rs[..First(ids, i)]));
  }

  // ------------------------------------------------------------- what it keeps

  /** Of the references exactly those to `seen` are kept, each as often as it was there. */
  ghost predicate KeptOf(kept: seq<string>, urns: seq<string>, seen: set<string>) {
    forall u: string :: multiset(kept)[u] == if u in seen then multiset(urns)[u] else 0
  }

  lemma {:induction false} KeepKeeps(urns: seq<string>, seen: set<string>)
    ensures KeptOf(Keep(urns, seen), urns, seen)
  {
    if urns != [] {
      KeepKeeps(urns[1..], seen);
      assert urns == [urns[0]] + urns[1..];
    }
  }

  ghost predicate ListKept(t: Option<seq<string>>, r: Option<seq<string>>, seen: set<string>) {
    if r.Some? then t.Some? && KeptOf(t.value, r.value, seen) else t.None?
  }

  /** A property stays exactly when one of its references does. */
  ghost predicate PropertiesKept(
      t: Option<map<string, seq<string>>>, r: Option<map<string, seq<string>>>, seen: set<string>)
  {
    if r.None? then t.None?
    else
      && t.Some? && t.value.Keys <= r.value.Keys
      && (forall p <- r.value :: p in t.value <==> exists u <- r.value[p] :: u in seen)
      && forall p <- t.value :: KeptOf(t.value[p], r.value[p], seen)
  }

  predicate ReferenceKept(t: Option<string>, r: Option<string>, among: set<string>) {
    t == if r.None? || r.value == "" || r.value in among then r else None
  }

  /** What is left of a resource when `seen` was listed before it and `listed` is the whole list. */
  ghost predicate KeepsExactly(t: Resource, r: Resource, seen: set<string>, listed: set<string>) {
    && ListKept(t.dependencies, r.dependencies, seen)
    && ListKept(t.replaceWith, r.replaceWith, seen)
    && PropertiesKept(t.propertyDependencies, r.propertyDependencies, seen)
    && ReferenceKept(t.deletedWith, r.deletedWith, seen)
    && ReferenceKept(t.parent, r.parent, listed)
  }

  lemma ListIsKept(r: Option<seq<string>>, seen: set<string>)
    ensures ListKept(KeepAll(r, seen), r, seen)
  {
    if r.Some? { KeepKeeps(r.value, seen); }
  }

  lemma PropertiesAreKept(r: Option<map<string, seq<string>>>, seen: set<string>)
    ensures PropertiesKept(KeepProperties(r, seen), r, seen)
  {
    hide Keep, KeptOf;
    if r.Some? {
      forall p <- r.value
        ensures Keep(r.value[p], seen) != [] <==> exists u <- r.value[p] :: u in seen
        ensures KeptOf(Keep(r.value[p], seen), r.value[p], seen)
      {
        KeepKeeps(r.value[p], seen);
        SomeKept(r.value[p], seen);
      }
    }
  }

  lemma PruneKeepsExactly(r: Resource, seen: set<string>, listed: set<string>)
    ensures KeepsExactly(DropDangling(Prune(r, seen), listed), r, seen, listed)
  {
    hide ListKept, PropertiesKept, KeepAll, KeepProperties;
    ListIsKept(r.dependencies, seen);
    ListIsKept(r.replaceWith, seen);
    PropertiesAreKept(r.propertyDependencies, seen);
  }

  lemma SomeKept(urns: seq<string>, seen: set<string>)
    ensures Keep(urns, seen) != [] <==> exists u <- urns :: u in seen
  {
    var kept := Keep(urns, seen);
    if kept != [] { assert kept[0] in kept; }
  }

  /** The pass drops nothing else: what is listed before an object stays referred to, and so do listed parents. */
  lemma PassKeepsExactly<T>(ids: seq<T>, rs: seq<Resource>, i: nat)
    requires |ids| == |rs| && i < |rs|
    ensures KeepsExactly(Pass(ids, rs)[i], rs[i], Urns(rs[..First(ids, i)]), Urns(rs))
  {
    hide Prune, DropDangling, KeepsExactly, Urns, First;
    PruneKeepsExactly(rs[i], Urns(rs[..First(ids, i)]), Urns(rs));
  }

  // ------------------------------------------------------------------ in place

  /** A resource object of the list under construction; the pass rewrites its references. */
  class ResourceObject {
    const urn: string
    var parent: Option<string>
    var dependencies: Option<seq<string>>
    var propertyDependencies: Option<map<string, seq<string>>>
    var replaceWith: Option<seq<string>>
    var deletedWith: Option<string>
    const pendingReplacement: Option<bool>
    const delete: Option<bool>
    const rest: string

    constructor (r: Resource)
      ensures Value() == r
    {
      urn := r.urn;
      parent := r.parent;
      dependencies := r.dependencies;
      propertyDependencies := r.propertyDependencies;
      replaceWith := r.replaceWith;
      deletedWith := r.deletedWith;
      pendingReplacement := r.pendingReplacement;
      delete := r.delete;
      rest := r.rest;
    }

    function Value(): Resource
      reads this
    {
      Resource(urn, parent, dependencies, propertyDependencies, replaceWith, deletedWith,
               pendingReplacement, delete, rest)
    }

    /** Keep only the references that have been listed. */
    method PruneReferences(referenceable: set<string>)
      modifies this
      ensures Value() == Prune(old(Value()), referenceable)
    {
      if dependencies.Some? {
        dependencies := Some(Keep(dependencies.value, referenceable));
      }
      if propertyDependencies.Some? {
        propertyDependencies := KeepProperties(propertyDependencies, referenceable);
      }
      if replaceWith.Some? {
        replaceWith := Some(Keep(replaceWith.value, referenceable));
      }
      if Names(deletedWith) && deletedWith.value !in referenceable {
        deletedWith := None;
      }
    }

    /** Replace a parent that is not listed by the parent last known of it. */
    method SettleParent(referenceable: set<string>, availableParents: map<string, Option<string>>)
      modifies this
      ensures Value() == Settled(old(Value()), referenceable, availableParents)
    {
      if Names(parent) && parent.value !in referenceable {
        parent := if parent.value in availableParents then availableParents[parent.value] else None;
      }
    }
  }

  function Settled(r: Resource, listed: set<string>, available: map<string, Option<string>>): Resource {
    if Names(r.parent) && r.parent.value !in listed then
      r.(parent := if r.parent.value in available then available[r.parent.value] else None)
    else r
  }

  /** The lookup of a dangling parent never finds anything: it is filed under listed URNs only. */
  lemma DanglingParentIsDropped(r: Resource, listed: set<string>, available: map<string, Option<string>>)
    requires available.Keys <= listed
    ensures Settled(r, listed, available) == DropDangling(r, listed)
  {
  }

  function Values(objects: seq<ResourceObject>): (rs: seq<Resource>)
    reads objects
    ensures |rs| == |objects| && forall i :: 0 <= i < |rs| ==> rs[i] == objects[i].Value()
  {
    if objects == [] then [] else [objects[0].Value()] + Values(objects[1..])
  }

  /** The value of place `i` once the first loop has visited the places before `n`. */
  ghost function AfterVisits(objects: seq<ResourceObject>, was: seq<Resource>, i: nat, n: nat): Resource
    requires i < |objects| == |was|
  {
    var f := First(objects, i);
    if f < n then Prune(was[i], Urns(was[..f])) else was[i]
  }

  lemma NextVisit(objects: seq<ResourceObject>, was: seq<Resource>, n: nat)
    requires n < |objects| == |was|
    ensures Prune(AfterVisits(objects, was, n, n), Urns(was[..n])) == AfterVisits(objects, was, n, n + 1)
    ensures Urns(was[..n + 1]) == Urns(was[..n]) + {was[n].urn}
  {
    var f := First(objects, n);
    if f < n {
      PruneRefers(was[n], Urns(was[..f]));
      UrnsGrow(was, f, n);
      RefersMonotone(Prune(was[n], Urns(was[..f])), Urns(was[..f]), Urns(was[..n]));
      PruneKeeps(Prune(was[n], Urns(was[..f])), Urns(was[..n]));
    }
    UrnsGrow(was, n, n + 1);
    assert was[..n + 1][n] == was[n];
    assert forall i :: 0 <= i < n ==> was[..n + 1][i] == was[..n][i];
  }

  /** A place whose object is not the one at place `n` is not touched by the visit of `n`. */
  lemma OtherPlaces(objects: seq<ResourceObject>, was: seq<Resource>, i: nat, n: nat)
    requires i < |objects| == |was| && n < |objects| && objects[i] != objects[n]
    ensures AfterVisits(objects, was, i, n + 1) == AfterVisits(objects, was, i, n)
  {
  }

  lemma SamePlaces(objects: seq<ResourceObject>, was: seq<Resource>, i: nat, n: nat, m: nat)
    requires i < |objects| == |was| && n < |objects| && objects[i] == objects[n] && was[i] == was[n]
    ensures AfterVisits(objects, was, i, m) == AfterVisits(objects, was, n, m)
  {
    var f, g := First(objects, i), First(objects, n);
    assert f == g;
  }

  lemma NothingVisited(objects: seq<ResourceObject>, was: seq<Resource>)
    requires |objects| == |was|
    ensures Urns(was[..0]) == {}
    ensures forall i :: 0 <= i < |was| ==> AfterVisits(objects, was, i, 0) == was[i]
  {
  }

  /** The first loop: visit the list once, remembering the URNs met so far. */
  method PruneInOrder(resources: seq<ResourceObject>) returns (referenceable: set<string>)
    modifies resources
    ensures referenceable == Urns(old(Values(resources)))
    ensures forall i :: 0 <= i < |resources| ==>
      resources[i].Value() == AfterVisits(resources, old(Values(resources)), i, |resources|)
  {
    hide First, Prune, Urns, AfterVisits;
    ghost var was := Values(resources);
    NothingVisited(resources, was);
    referenceable := {};
    for n := 0 to |resources|
      invariant referenceable == Urns(was[..n])
      invariant forall i :: 0 <= i < |resources| ==> resources[i].Value() == AfterVisits(resources, was, i, n)
    {
      var resource := resources[n];
      NextVisit(resources, was, n);
      resource.PruneReferences(referenceable);
      referenceable := referenceable + {resource.urn};
      forall i | 0 <= i < |resources|
        ensures resources[i].Value() == AfterVisits(resources, was, i, n + 1)
      {
        if resources[i] == resource {
          SamePlaces(resources, was, i, n, n + 1);
        } else {
          OtherPlaces(resources, was, i, n);
        }
      }
    }
    assert was[..|resources|] == was;
  }

  ghost function AfterDrops(objects: seq<ResourceObject>, was: seq<Resource>, listed: set<string>, i: nat,
      n: nat): Resource
    requires i < |objects| == |was|
  {
    if First(objects, i) < n then DropDangling(was[i], listed) else was[i]
  }

  lemma NextDrop(objects: seq<ResourceObject>, was: seq<Resource>, listed: set<string>, i: nat, n: nat)
    requires i < |objects| == |was| && n < |objects|
    ensures objects[i] != objects[n] ==>
              AfterDrops(objects, was, listed, i, n + 1) == AfterDrops(objects, was, listed, i, n)
    ensures objects[i] == objects[n] && was[i] == was[n] ==>
              AfterDrops(objects, was, listed, i, n + 1) == DropDangling(AfterDrops(objects, was, listed, n, n), listed)
  {
    var f, g := First(objects, i), First(objects, n);
    if objects[i] == objects[n] { assert f == g; }
  }

  /** The second loop: a parent that is not listed falls back to what is known of it, nothing. */
  method DropDanglingParents(resources: seq<ResourceObject>, referenceable: set<string>)
    requires forall i :: 0 <= i < |resources| ==> resources[i].urn in referenceable
    modifies resources
    ensures forall i :: 0 <= i < |resources| ==>
      resources[i].Value() == DropDangling(old(Values(resources))[i], referenceable)
  {
    hide DropDangling, First;
    ghost var was := Values(resources);
    NothingDropped(resources, was, referenceable);
    var availableParents: map<string, Option<string>> := map[];
    for n := 0 to |resources|
      invariant availableParents.Keys <= referenceable
      invariant forall i :: 0 <= i < |resources| ==>
        resources[i].Value() == AfterDrops(resources, was, referenceable, i, n)
    {
      var resource := resources[n];
      DanglingParentIsDropped(resource.Value(), referenceable, availableParents);
      resource.SettleParent(referenceable, availableParents);
      availableParents := availableParents[resource.urn := resource.parent];
      forall i | 0 <= i < |resources|
        ensures resources[i].Value() == AfterDrops(resources, was, referenceable, i, n + 1)
      {
        NextDrop(resources, was, referenceable, i, n);
      }
    }
    AllDropped(resources, was, referenceable);
  }

  lemma NothingDropped(objects: seq<ResourceObject>, was: seq<Resource>, listed: set<string>)
    requires |objects| == |was|
    ensures forall i :: 0 <= i < |was| ==> AfterDrops(objects, was, listed, i, 0) == was[i]
  {
  }

  lemma AllDropped(objects: seq<ResourceObject>, was: seq<Resource>, listed: set<string>)
    requires |objects| == |was|
    ensures forall i :: 0 <= i < |was| ==>
      AfterDrops(objects, was, listed, i, |objects|) == DropDangling(was[i], listed)
  {
  }

  lemma AllVisited(objects: seq<ResourceObject>, was: seq<Resource>, i: nat)
    requires i < |objects| == |was|
    ensures AfterVisits(objects, was, i, |objects|) == Prune(was[i], Urns(was[..First(objects, i)]))
    ensures AfterVisits(objects, was, i, |objects|).urn in Urns(was)
  {
    assert was[i].urn in Urns(was);
  }

  method RebuildDependencies(resources: seq<ResourceObject>)
    modifies resources
    ensures Values(resources) == Pass(resources, old(Values(resources)))
  {
    hide AfterVisits, DropDangling, Prune, Urns;
    ghost var was := Values(resources);
    var referenceable := PruneInOrder(resources);
    forall i | 0 <= i < |resources|
      ensures resources[i].Value() == Prune(was[i], Urns(was[..First(resources, i)]))
      ensures resources[i].urn in referenceable
    {
      AllVisited(resources, was, i);
    }
    DropDanglingParents(resources, referenceable);
  }
}
