/**
 * The replay as it runs, on resource objects: collections updated entry by entry, base resources
 * copied, and the listed objects pruned in place.
 */
module JournalLoop {
  import opened Wrappers
  import opened JournalTypes
  import opened RefreshPass
  import opened JournalReplay

  /** A deployment document. The replay assigns nothing but the secrets provider of its own copies. */
  class DeploymentObject {
    const resources: Option<seq<ResourceObject>>
    const pendingOperations: Option<seq<Operation>>
    var secretsProviders: Option<string>
    const rest: string

    constructor (
        resources: Option<seq<ResourceObject>>, pendingOperations: Option<seq<Operation>>,
        secretsProviders: Option<string>, rest: string)
      ensures this.resources == resources && this.pendingOperations == pendingOperations
      ensures this.secretsProviders == secretsProviders && this.rest == rest
    {
      this.resources, this.pendingOperations := resources, pendingOperations;
      this.secretsProviders, this.rest := secretsProviders, rest;
    }

    function Listed(): seq<ResourceObject> {
      if resources.Some? then resources.value else []
    }

    function Objects(): (all: set<object>)
      ensures this in all && forall i :: 0 <= i < |Listed()| ==> Listed()[i] in all
    {
      assert forall i :: 0 <= i < |Listed()| ==> Listed()[i] in Listed();
      {this as object} + set o <- Listed() :: o as object
    }

    function Value(): Deployment
      reads this, Listed()
    {
      Deployment(
        if resources.Some? then Some(Values(resources.value)) else None,
        pendingOperations, secretsProviders, rest)
    }
  }

  /** A shallow copy: another document that lists the same resource objects. */
  method CopyOf(d: DeploymentObject) returns (copy: DeploymentObject)
    ensures fresh(copy) && copy.resources == d.resources && copy.Value() == d.Value()
  {
    copy := new DeploymentObject(d.resources, d.pendingOperations, d.secretsProviders, d.rest);
  }

  /** A journal row as it was read: its state and its snapshot are objects. */
  datatype EntryRow = EntryRow(
    kind: Kind,
    operationId: int,
    state: Option<ResourceObject>,
    operation: Option<Operation>,
    secretsProvider: Option<string>,
    newSnapshot: Option<DeploymentObject>,
    removeOld: Option<int>,
    removeNew: Option<int>,
    pendingReplacementOld: Option<int>,
    pendingReplacementNew: Option<int>,
    deleteOld: Option<int>,
    deleteNew: Option<int>,
    isRefresh: bool,
    elideWrite: bool)
  {
    function State(): set<ResourceObject> {
      if state.Some? then {state.value} else {}
    }

    function Snapshot(): set<ResourceObject> {
      if newSnapshot.Some? then set o <- newSnapshot.value.Listed() else {}
    }

    function Objects(): set<object> {
      State() + Snapshot() + if newSnapshot.Some? then {newSnapshot.value} else {}
    }

    function Entry(): Entry
      reads Objects()
    {
      JournalTypes.Entry(
        kind, operationId, if state.Some? then Some(state.value.Value()) else None, operation, secretsProvider,
        if newSnapshot.Some? then Some(newSnapshot.value.Value()) else None,
        removeOld, removeNew, pendingReplacementOld, pendingReplacementNew, deleteOld, deleteNew,
        isRefresh, elideWrite)
    }
  }

  lemma SameFirst<T, U>(a: seq<T>, b: seq<U>, i: nat)
    requires |a| == |b| && i < |a|
    requires forall i, j :: 0 <= i < |a| && 0 <= j < |a| ==> (a[i] == a[j] <==> b[i] == b[j])
    ensures First(a, i) == First(b, i)
  {
    var f, g := First(a, i), First(b, i);
    assert b[f] == b[i] && a[g] == a[i];
  }

  /** The pass only looks at which places share an object. */
  lemma SameSharing<T, U>(a: seq<T>, b: seq<U>, rs: seq<Resource>)
    requires |a| == |b| == |rs|
    requires forall i, j :: 0 <= i < |a| && 0 <= j < |a| ==> (a[i] == a[j] <==> b[i] == b[j])
    ensures Pass(a, rs) == Pass(b, rs)
  {
    hide First, Prune, DropDangling, Urns;
    forall i | 0 <= i < |rs| ensures Pass(a, rs)[i] == Pass(b, rs)[i] {
      SameFirst(a, b, i);
    }
  }

  /** Pending operations: those in progress, then the base's creations. */
  method CollectPending(incomplete: seq<(int, Operation)>, base: seq<Operation>) returns (pending: seq<Operation>)
    ensures pending == OperationsOf(incomplete) + Creating(base)
  {
    pending := OperationsOf(incomplete);
    for i := 0 to |base|
      invariant pending + Creating(base[i..]) == OperationsOf(incomplete) + Creating(base)
    {
      assert base[i..][1..] == base[i + 1..];
      if base[i].kind == "creating" { pending := pending + [base[i]]; }
    }
  }

  /** Which entry's state an object is, by the number of the entry. */
  type StateIndex = map<ResourceObject, nat>

  function Tag(known: StateIndex, o: ResourceObject, copy: Origin): Origin {
    if o in known then StateOf(known[o]) else copy
  }

  ghost predicate Injective(known: StateIndex) {
    forall a, b :: a in known && b in known && known[a] == known[b] ==> a == b
  }

  /** The objects of a list are the items': equal values, and shared where the origins agree. */
  ghost predicate Mirrors(known: StateIndex, objects: seq<ResourceObject>, items: seq<Item>)
    reads objects
  {
    && |objects| == |items|
    && (forall p :: 0 <= p < |items| ==>
          && objects[p].Value() == items[p].value
          && (if objects[p] in known then items[p].origin == StateOf(known[objects[p]])
              else !items[p].origin.StateOf?))
    && (forall p, q :: 0 <= p < |items| && 0 <= q < |items| ==>
          (objects[p] == objects[q] <==> items[p].origin == items[q].origin))
  }

  lemma NothingMirrors(known: StateIndex)
    ensures Mirrors(known, [], [])
  {
  }

  /** A state that is listed once more shares its object with the places before. */
  lemma MirrorsState(known: StateIndex, objects: seq<ResourceObject>, items: seq<Item>, o: ResourceObject)
    requires Mirrors(known, objects, items) && Injective(known) && o in known
    ensures Mirrors(known, objects + [o], items + [Item(StateOf(known[o]), o.Value())])
  {
  }

  lemma MirrorsValues(known: StateIndex, objects: seq<ResourceObject>, items: seq<Item>)
    requires Mirrors(known, objects, items)
    ensures |objects| == |items| && Values(objects) == ValuesOf(items)
    ensures forall p, q :: 0 <= p < |items| && 0 <= q < |items| ==>
      (objects[p] == objects[q] <==> Origins(items)[p] == Origins(items)[q])
  {
  }

  /** A copy that is listed stands alone. */
  lemma MirrorsCopy(known: StateIndex, objects: seq<ResourceObject>, items: seq<Item>, o: ResourceObject, copy: Origin)
    requires Mirrors(known, objects, items) && o !in known && o !in objects && !copy.StateOf?
    requires forall item <- items :: item.origin != copy
    ensures Mirrors(known, objects + [o], items + [Item(copy, o.Value())])
  {
    assert forall p :: 0 <= p < |items| ==> items[p] in items;
  }

  /** New objects for resources, no two places sharing one. */
  method NewObjects(rs: seq<Resource>) returns (objects: seq<ResourceObject>)
    ensures fresh(objects) && |objects| == |rs|
    ensures forall i :: 0 <= i < |rs| ==> objects[i].Value() == rs[i]
    ensures forall i, j :: 0 <= i < j < |objects| ==> objects[i] != objects[j]
  {
    objects := [];
    for n := 0 to |rs|
      invariant fresh(objects) && |objects| == n
      invariant forall i :: 0 <= i < n ==> objects[i].Value() == rs[i]
      invariant forall i, j :: 0 <= i < j < n ==> objects[i] != objects[j]
    {
      var o := new ResourceObject(rs[n]);
      objects := objects + [o];
    }
  }

  /** The replaced ones put in their places; an index that is not one of the base is passed over. */
  method ReplaceBase(copies: seq<ResourceObject>, toReplace: map<int, ResourceObject>)
    returns (base: seq<ResourceObject>)
    ensures |base| == |copies|
    ensures forall i :: 0 <= i < |base| ==> base[i] == if i in toReplace then toReplace[i] else copies[i]
  {
    base := copies;
    var left := toReplace.Keys;
    while left != {}
      invariant left <= toReplace.Keys && |base| == |copies|
      invariant forall i :: 0 <= i < |base| ==>
        base[i] == if i in toReplace && i !in left then toReplace[i] else copies[i]
    {
      HasMember(left);
      var index :| index in left;
      if 0 <= index < |base| { base := base[index := toReplace[index]]; }
      left := left - {index};
    }
  }

  lemma NoBaseItems(st: Replay)
    ensures BaseItems(st, 0) == []
  {
  }

  ghost function StateItemOf(known: StateIndex, o: Option<ResourceObject>): Option<Item>
    reads if o.Some? then {o.value} else {}
  {
    if o.Some? then Some(Item(Tag(known, o.value, StateOf(0)), o.value.Value())) else None
  }

  ghost function SlotItem(known: StateIndex, slot: nat, o: Option<ResourceObject>): Option<Item>
    reads if o.Some? then {o.value} else {}
  {
    if o.Some? then Some(Item(Tag(known, o.value, NewCopy(slot)), o.value.Value())) else None
  }

  function Filled(slots: seq<Option<ResourceObject>>): set<ResourceObject> {
    set slot <- slots | slot.Some? :: slot.value
  }

  ghost function SlotItems(known: StateIndex, slots: seq<Option<ResourceObject>>): (items: seq<Option<Item>>)
    reads Filled(slots)
    ensures |items| == |slots| && forall j :: 0 <= j < |slots| ==> items[j] == SlotItem(known, j, slots[j])
  {
    if slots == [] then []
    else
      assert Filled(slots[..|slots| - 1]) <= Filled(slots);
      SlotItems(known, slots[..|slots| - 1]) + [SlotItem(known, |slots| - 1, slots[|slots| - 1])]
  }

  ghost function ReplacementItems(known: StateIndex, toReplace: map<int, ResourceObject>): map<int, Item>
    reads toReplace.Values
  {
    map i | i in toReplace :: StateItemOf(known, Some(toReplace[i])).value
  }

  /** A copy stands in one slot only. */
  ghost predicate CopiesStandAlone(known: StateIndex, slots: seq<Option<ResourceObject>>) {
    forall i, j :: 0 <= i < j < |slots| && slots[i].Some? && slots[i] == slots[j] ==> slots[i].value in known
  }

  lemma NextPresent(news: seq<Option<Item>>, j: nat)
    requires j < |news|
    ensures Present(news[..j + 1]) == Present(news[..j]) + if news[j].Some? then [news[j].value] else []
  {
    assert news[..j + 1][..j] == news[..j];
  }

  /** The new resources that are left, in order. */
  method CollectNew(ghost known: StateIndex, slots: seq<Option<ResourceObject>>)
    returns (resources: seq<ResourceObject>)
    requires Injective(known) && CopiesStandAlone(known, slots)
    ensures Mirrors(known, resources, Present(SlotItems(known, slots)))
    ensures forall o <- resources :: o in Filled(slots)
    ensures forall item <- Present(SlotItems(known, slots)) :: !item.origin.BaseCopy?
  {
    hide Mirrors, Present, SlotItems, Injective;
    ghost var news := SlotItems(known, slots);
    ghost var items: seq<Item> := [];
    resources := [];
    NothingMirrors(known);
    assert items == Present(news[..0]) by { assert news[..0] == []; NothingPresent(); }
    for j := 0 to |slots|
      invariant Mirrors(known, resources, items) && items == Present(news[..j])
      invariant forall o <- resources :: Some(o) in slots[..j]
      invariant forall item <- items ::
        !item.origin.BaseCopy? && (item.origin.NewCopy? ==> item.origin.slot < j)
    {
      NextPresent(news, j);
      if slots[j].Some? {
        var o := slots[j].value;
        if o in known {
          MirrorsState(known, resources, items, o);
        } else {
          assert o !in resources;
          MirrorsCopy(known, resources, items, o, NewCopy(j));
        }
        resources, items := resources + [o], items + [news[j].value];
      }
    }
    assert items == Present(news) by { assert news[..|slots|] == news; }
    assert SlotItems(known, slots) == news;
  }

  lemma NothingPresent()
    ensures Present([]) == []
  {
  }

  /** Knowing one more state changes nothing of the objects that are not that state. */
  lemma LearnedApart(
      known: StateIndex, slots: seq<Option<ResourceObject>>, toReplace: map<int, ResourceObject>,
      state: ResourceObject, count: nat)
    requires state !in Filled(slots) && state !in toReplace.Values
    ensures SlotItems(known[state := count], slots) == SlotItems(known, slots)
    ensures ReplacementItems(known[state := count], toReplace) == ReplacementItems(known, toReplace)
  {
    var more := known[state := count];
    forall j | 0 <= j < |slots| ensures SlotItem(more, j, slots[j]) == SlotItem(known, j, slots[j]) {
      if slots[j].Some? { assert slots[j].value in Filled(slots); }
    }
    assert SlotItems(more, slots) == SlotItems(known, slots);
    forall i <- toReplace
      ensures StateItemOf(more, Some(toReplace[i])) == StateItemOf(known, Some(toReplace[i]))
    {
      assert toReplace[i] in toReplace.Values;
    }
  }

  /** What an entry does to the object of a new resource. */
  datatype Edit = Clear | SetDelete | SetPendingReplacement | Put(state: Option<ResourceObject>) {
    function State(): set<ResourceObject> {
      if Put? && state.Some? then {state.value} else {}
    }
  }

  /** The mutable state of one replay, updated entry by entry. */
  class Replayer {
    var deployment: DeploymentObject
    var newResources: seq<Option<ResourceObject>>
    var opIdToNewIdx: map<int, nat>
    var incompleteOps: seq<(int, Operation)>
    var toDeleteInSnapshot: set<int>
    var toReplaceInSnapshot: map<int, ResourceObject>
    var markAsDeletion: set<int>
    var markAsPendingReplacement: set<int>
    var hasRefresh: bool
    ghost var known: StateIndex
    ghost var count: nat

    /** The objects in the collections, which a rebuild may list and prune. */
    ghost function Held(): set<ResourceObject>
      reads `newResources, `toReplaceInSnapshot
    {
      Filled(newResources) + toReplaceInSnapshot.Values
    }

    ghost function State(): Replay
      reads this, deployment, deployment.Listed(), Held()
    {
      Replay(deployment.Value(), SlotItems(known, newResources), opIdToNewIdx, incompleteOps, toDeleteInSnapshot,
             ReplacementItems(known, toReplaceInSnapshot), markAsDeletion, markAsPendingReplacement, hasRefresh, count)
    }

    /** Only states replace base resources, and a copy stands in one slot only. */
    ghost predicate Valid()
      reads `known, `newResources, `toReplaceInSnapshot
    {
      && Injective(known) && CopiesStandAlone(known, newResources)
      && forall i <- toReplaceInSnapshot :: toReplaceInSnapshot[i] in known
    }

    constructor (base: DeploymentObject)
      ensures Valid() && Held() == {} && known == map[] && State() == Start(base.Value(), false)
      ensures fresh(deployment)
    {
      deployment := new DeploymentObject(
        base.resources, base.pendingOperations, base.secretsProviders, base.rest);
      newResources, opIdToNewIdx, incompleteOps := [], map[], [];
      toDeleteInSnapshot, toReplaceInSnapshot := {}, map[];
      markAsDeletion, markAsPendingReplacement := {}, {};
      hasRefresh, count, known := false, 0, map[];
      new;
      assert ReplacementItems(known, toReplaceInSnapshot) == map[];
    }

    /** What stands for base resource `index` before it is marked: its replacement or its copy. */
    ghost predicate StandsFor(resource: ResourceObject, index: nat)
      requires index < |deployment.Listed()|
      reads this, deployment.Listed(), resource
    {
      if index in toReplaceInSnapshot then resource == toReplaceInSnapshot[index]
      else resource !in known && resource.Value() == deployment.Listed()[index].Value()
    }

    /** The object listed for a base resource: a mark makes a copy. */
    method BaseObject(index: nat, resource: ResourceObject) returns (o: ResourceObject)
      requires Valid() && index < |deployment.Listed()| && StandsFor(resource, index)
      ensures o == resource || fresh(o)
      ensures BaseItem(State(), index) == Item(Tag(known, o, BaseCopy(index)), o.Value())
    {
      o := resource;
      if index in markAsPendingReplacement { o := new ResourceObject(o.Value().(pendingReplacement := Some(true))); }
      if index in markAsDeletion { o := new ResourceObject(o.Value().(delete := Some(true))); }
    }

    /** Base resource `index` is listed behind what has been listed. */
    method ListBase(
        resources: seq<ResourceObject>, ghost items: seq<Item>, index: nat, resource: ResourceObject)
      returns (longer: seq<ResourceObject>)
      requires Valid() && Mirrors(known, resources, items)
      requires index < |deployment.Listed()| && StandsFor(resource, index)
      requires resource !in known ==> resource !in resources
      requires forall item <- items :: item.origin.BaseCopy? ==> item.origin.index < index
      ensures State() == old(State()) && Mirrors(known, longer, items + [BaseItem(State(), index)])
      ensures exists o :: longer == resources + [o] && (o == resource || fresh(o))
    {
      hide Mirrors, BaseItem;
      var o := BaseObject(index, resource);
      if o in known {
        MirrorsState(known, resources, items, o);
      } else {
        MirrorsCopy(known, resources, items, o, BaseCopy(index));
      }
      longer := resources + [o];
    }

    lemma StateCounts()
      ensures State().refresh == hasRefresh && State().count == count
    {
    }

    lemma StateParts()
      ensures State().toDelete == toDeleteInSnapshot && State().news == SlotItems(known, newResources)
      ensures |BaseResources(State().deployment)| == |deployment.Listed()|
      ensures Items(State()) == Present(State().news) + BaseItems(State(), |deployment.Listed()|)
    {
    }

    lemma NextBaseItems(index: nat)
      requires index < |deployment.Listed()| == |BaseResources(State().deployment)|
      ensures BaseItems(State(), index + 1) == BaseItems(State(), index)
              + if index in State().toDelete then [] else [BaseItem(State(), index)]
      ensures BaseItem(State(), index).origin.BaseCopy? ==> BaseItem(State(), index).origin.index == index
    {
    }

    /** List what is left of the base resources behind the new ones. */
    method ListSurvivors(news: seq<ResourceObject>, base: seq<ResourceObject>) returns (resources: seq<ResourceObject>)
      requires Valid() && Mirrors(known, news, Present(State().news))
      requires forall item <- Present(State().news) :: !item.origin.BaseCopy?
      requires |base| == |deployment.Listed()| && forall i :: 0 <= i < |base| ==> StandsFor(base[i], i)
      requires forall i :: 0 <= i < |base| && base[i] !in known ==> base[i] !in news
      requires forall i, j :: 0 <= i < j < |base| && base[i] == base[j] ==> base[i] in known
      ensures State() == old(State()) && Mirrors(known, resources, Items(State()))
      ensures forall o <- resources :: fresh(o) || o in news || o in base
    {
      hide Mirrors, Present, BaseItems, BaseItem, Items, State;
      ghost var st := State();
      StateParts();
      resources := news;
      ghost var items := Present(st.news);
      assert items + BaseItems(st, 0) == items by { NoBaseItems(st); }
      for index := 0 to |base|
        invariant State() == st && Mirrors(known, resources, items)
        invariant items == Present(st.news) + BaseItems(st, index)
        invariant forall o <- resources :: fresh(o) || o in news || o in base
        invariant forall i :: index <= i < |base| && base[i] !in known ==> base[i] !in resources
        invariant forall item <- items :: item.origin.BaseCopy? ==> item.origin.index < index
      {
        NextBaseItems(index);
        if index in toDeleteInSnapshot { continue; }
        resources := ListBase(resources, items, index, base[index]);
        items := items + [BaseItem(st, index)];
      }
      StateParts();
    }

    /** Base resources copied, with the replaced ones put in their places. */
    method CopyBase() returns (base: seq<ResourceObject>)
      requires Valid()
      ensures State() == old(State())
      ensures |base| == |deployment.Listed()| && forall i :: 0 <= i < |base| ==> StandsFor(base[i], i)
      ensures forall i :: 0 <= i < |base| ==> if base[i] in known then base[i] in Held() else fresh(base[i])
      ensures forall i, j :: 0 <= i < j < |base| && base[i] == base[j] ==> base[i] in known
    {
      var copies := NewObjects(Values(deployment.Listed()));
      assert forall i :: 0 <= i < |copies| ==> copies[i] !in known;
      base := ReplaceBase(copies, toReplaceInSnapshot);
    }

    /** The list before the refresh pass: new resources in success order, then surviving base ones. */
    method CollectResources() returns (resources: seq<ResourceObject>)
      requires Valid()
      ensures State() == old(State()) && Mirrors(known, resources, Items(State()))
      ensures forall o <- resources :: fresh(o) || o in Held()
    {
      hide Mirrors, Present, BaseItems, BaseItem, Items, SlotItems;
      var news := CollectNew(known, newResources);
      assert State() == old(State());
      var base := CopyBase();
      resources := ListSurvivors(news, base);
    }

    /** Rebuild the deployment: only copies made here and states held are pruned, never the base given. */
    method RebuildFromJournal() returns (d: DeploymentObject)
      requires Valid()
      modifies Held()
      ensures fresh(d) && d.Value() == Rebuild(old(State()))
      ensures forall o <- d.Listed() :: fresh(o) || o in old(Held())
    {
      hide Mirrors, Items, Pass, Creating, OperationsOf;
      ghost var st := State();
      var resources := CollectResources();
      assert Held() == old(Held());
      assert forall o <- resources :: fresh(o) || o in Held();
      MirrorsValues(known, resources, Items(st));
      if hasRefresh {
        SameSharing(resources, Origins(Items(st)), ValuesOf(Items(st)));
        RebuildDependencies(resources);
      }
      var basePending := if deployment.pendingOperations.Some? then deployment.pendingOperations.value else [];
      var pending := CollectPending(incompleteOps, basePending);
      d := new DeploymentObject(Some(resources), Some(pending), deployment.secretsProviders, deployment.rest);
    }

    ghost function ChangeOf(edit: Edit): Change
      reads `known, edit.State()
    {
      match edit
      case Clear => Remove
      case SetDelete => MarkDelete
      case SetPendingReplacement => MarkPending
      case Put(o) => Become(StateItemOf(known, o))
    }

    /** What an edit makes of a slot; a mark makes a copy. */
    method Edited(resource: ResourceObject, slot: nat, edit: Edit) returns (changed: Option<ResourceObject>)
      requires edit.State() <= known.Keys
      ensures SlotItem(known, slot, changed)
           == Changed(Item(Tag(known, resource, NewCopy(slot)), resource.Value()), slot, ChangeOf(edit))
      ensures changed.Some? ==> changed.value in edit.State() || fresh(changed.value)
    {
      match edit {
      case Clear => changed := None;
      case SetDelete =>
        var copy := new ResourceObject(resource.Value().(delete := Some(true)));
        changed := Some(copy);
      case SetPendingReplacement =>
        var copy := new ResourceObject(resource.Value().(pendingReplacement := Some(true)));
        changed := Some(copy);
      case Put(state) => changed := state;
      }
    }

    method SetSlot(slot: nat, o: Option<ResourceObject>)
      requires Valid() && slot < |newResources|
      requires o.Some? ==> o.value in known || o.value !in Held()
      modifies `newResources
      ensures Valid() && newResources == old(newResources)[slot := o]
      ensures State() == old(State()).(news := old(State()).news[slot := old(SlotItem(known, slot, o))])
      ensures forall x <- Held() :: x in old(Held()) || o == Some(x)
    {
      ghost var news := State().news;
      newResources := newResources[slot := o];
      assert State().news == news[slot := SlotItem(known, slot, o)];
    }

    /** Change the slot an operation's resource went to, unless it has been emptied. */
    method UpdateNewResource(operationId: int, edit: Edit)
      requires Valid() && edit.State() <= known.Keys
      modifies `newResources
      ensures Valid() && State() == Update(old(State()), operationId, old(ChangeOf(edit)))
      ensures forall o <- Held() :: fresh(o) || o in old(Held()) || o in edit.State()
    {
      hide Valid, Changed;
      if operationId in opIdToNewIdx {
        var index := opIdToNewIdx[operationId];
        if index < |newResources| && newResources[index].Some? {
          var changed := Edited(newResources[index].value, index, edit);
          assert State() == old(State()) && Held() == old(Held());
          SetSlot(index, changed);
        }
      }
    }

    /** The entry's state, if any, is known as that of the entry being applied. */
    ghost predicate Learned(entry: EntryRow)
      reads `known, `count
    {
      entry.state.Some? ==> entry.state.value in known && known[entry.state.value] == count
    }

    /** Nothing is held but what was, the entry's state, and copies made meanwhile. */
    twostate predicate HoldsNoMore(entry: EntryRow)
      reads `newResources, `toReplaceInSnapshot
    {
      forall o <- Held() :: fresh(o) || o in old(Held()) || entry.state == Some(o)
    }

    lemma LearnedItem(entry: EntryRow)
      requires Learned(entry)
      ensures StateItemOf(known, entry.state) == StateItem(State(), entry.Entry())
    {
    }

    method PushState(operationId: int, state: ResourceObject)
      requires Valid() && state in known
      modifies `newResources, `opIdToNewIdx
      ensures Valid() && State() == old(State()).(
        news := old(State()).news + [old(StateItemOf(known, Some(state)))],
        slotOf := old(State()).slotOf[operationId := |old(State()).news|])
      ensures forall o <- Held() :: o in old(Held()) || o == state
    {
      ghost var news := State().news;
      var index := |newResources|;
      newResources := newResources + [Some(state)];
      opIdToNewIdx := opIdToNewIdx[operationId := index];
      assert State().news == news + [StateItemOf(known, Some(state))];
    }

    method DropIncomplete(operationId: int)
      modifies `incompleteOps
      ensures State() == old(State()).(incomplete := DropOperation(old(State()).incomplete, operationId))
    {
      incompleteOps := DropOperation(incompleteOps, operationId);
    }

    method DeleteInSnapshot(index: Option<int>)
      modifies `toDeleteInSnapshot
      ensures State() == old(State()).(toDelete := AddIf(old(State()).toDelete, index))
    {
      if index.Some? { toDeleteInSnapshot := toDeleteInSnapshot + {index.value}; }
    }

    method MarkDeletion(index: Option<int>)
      modifies `markAsDeletion
      ensures State() == old(State()).(markDelete := AddIf(old(State()).markDelete, index))
    {
      if index.Some? { markAsDeletion := markAsDeletion + {index.value}; }
    }

    method MarkPendingReplacement(index: Option<int>)
      modifies `markAsPendingReplacement
      ensures State() == old(State()).(markPending := AddIf(old(State()).markPending, index))
    {
      if index.Some? { markAsPendingReplacement := markAsPendingReplacement + {index.value}; }
    }

    method SeeRefresh(seen: bool)
      modifies `hasRefresh
      ensures State() == old(State()).(refresh := old(State()).refresh || seen)
    {
      if seen { hasRefresh := true; }
    }

    /** The new resource of a success, and what it removes. */
    method PushNewResource(entry: EntryRow)
      requires Valid() && Learned(entry)
      modifies `newResources, `opIdToNewIdx, `incompleteOps, `toDeleteInSnapshot
      ensures Valid() && HoldsNoMore(entry) && State() == AfterPush(old(State()), old(entry.Entry()))
    {
      hide Valid, Update, Held, State, DropOperation;
      LearnedItem(entry);
      DropIncomplete(entry.operationId);
      if entry.state.Some? { PushState(entry.operationId, entry.state.value); }
      DeleteInSnapshot(entry.removeOld);
      if entry.removeNew.Some? { UpdateNewResource(entry.removeNew.value, Clear); }
    }

    method ApplySuccess(entry: EntryRow)
      requires Valid() && Learned(entry)
      modifies `newResources, `opIdToNewIdx, `incompleteOps, `toDeleteInSnapshot, `markAsDeletion,
        `markAsPendingReplacement, `hasRefresh
      ensures Valid() && HoldsNoMore(entry) && State() == Succeed(old(State()), old(entry.Entry()))
    {
      hide Valid, AfterPush, Update, Held, State;
      PushNewResource(entry);
      MarkDeletion(entry.deleteOld);
      if entry.deleteNew.Some? { UpdateNewResource(entry.deleteNew.value, SetDelete); }
      MarkPendingReplacement(entry.pendingReplacementOld);
      if entry.pendingReplacementNew.Some? {
        UpdateNewResource(entry.pendingReplacementNew.value, SetPendingReplacement);
      }
      SeeRefresh(entry.isRefresh);
    }

    method ReplaceInSnapshot(index: int, state: ResourceObject)
      requires Valid() && state in known
      modifies `toReplaceInSnapshot
      ensures Valid() && State() == old(State()).(
        toReplace := old(State()).toReplace[index := old(StateItemOf(known, Some(state))).value])
      ensures forall o <- Held() :: o in old(Held()) || o == state
    {
      ghost var toReplace := ReplacementItems(known, toReplaceInSnapshot);
      toReplaceInSnapshot := toReplaceInSnapshot[index := state];
      assert ReplacementItems(known, toReplaceInSnapshot) == toReplace[index := StateItemOf(known, Some(state)).value];
    }

    method ApplyRefreshSuccess(entry: EntryRow)
      requires Valid() && Learned(entry)
      modifies `newResources, `incompleteOps, `toDeleteInSnapshot, `toReplaceInSnapshot, `hasRefresh
      ensures Valid() && HoldsNoMore(entry) && State() == Refreshed(old(State()), old(entry.Entry()))
    {
      hide Valid, Update, Held, State, DropOperation;
      LearnedItem(entry);
      DropIncomplete(entry.operationId);
      SeeRefresh(true);
      if entry.state.None? {
        DeleteInSnapshot(entry.removeOld);
      } else if entry.removeOld.Some? {
        ReplaceInSnapshot(entry.removeOld.value, entry.state.value);
      }
      if entry.removeNew.Some? { UpdateNewResource(entry.removeNew.value, Put(entry.state)); }
    }

    method ApplyOutputs(entry: EntryRow)
      requires Valid() && Learned(entry)
      modifies `newResources, `toReplaceInSnapshot
      ensures Valid() && HoldsNoMore(entry) && State() == Output(old(State()), old(entry.Entry()))
    {
      hide Valid, Update, Held, State;
      LearnedItem(entry);
      if entry.state.Some? && entry.removeOld.Some? {
        ReplaceInSnapshot(entry.removeOld.value, entry.state.value);
      } else if entry.state.Some? && entry.removeNew.Some? {
        UpdateNewResource(entry.removeNew.value, Put(entry.state));
      }
    }

    method StartOver(d: DeploymentObject)
      modifies this
      ensures Valid() && Held() == {} && known == map[] && count == 0 && deployment == d
      ensures State() == Start(d.Value(), old(hasRefresh))
    {
      deployment := d;
      newResources, opIdToNewIdx, incompleteOps := [], map[], [];
      toDeleteInSnapshot, toReplaceInSnapshot := {}, map[];
      markAsDeletion, markAsPendingReplacement := {}, {};
      count, known := 0, map[];
      assert ReplacementItems(known, toReplaceInSnapshot) == map[];
    }

    /** Start over from what the journal made of the deployment so far. */
    method ApplyRebuilt()
      requires Valid()
      modifies this, Held()
      ensures Valid() && Held() == {} && known == map[] && count == 0 && fresh(deployment)
      ensures State() == Start(Rebuild(old(State())), old(State()).refresh)
    {
      hide Items, Rebuild, State, Valid, Held;
      StateCounts();
      var rebuilt := RebuildFromJournal();
      StartOver(rebuilt);
    }

    /** From here on the entry's state is known by the number of the entry. */
    ghost method Learn(entry: EntryRow)
      requires Valid() && (forall o <- known :: known[o] < count)
      requires entry.State() !! known.Keys && entry.State() !! Held()
      modifies `known
      ensures Valid() && Learned(entry) && State() == old(State())
      ensures known.Keys == old(known.Keys) + entry.State() && forall o <- known :: known[o] <= count
    {
      if entry.state.Some? {
        LearnedApart(known, newResources, toReplaceInSnapshot, entry.state.value, count);
        known := known[entry.state.value := count];
      }
    }

    method TakeSnapshot(snapshot: DeploymentObject)
      modifies `deployment
      ensures fresh(deployment) && State() == old(State()).(deployment := snapshot.Value())
    {
      deployment := CopyOf(snapshot);
    }

    method SetSecretsProvider(provider: Option<string>)
      modifies deployment
      ensures State() == old(State()).(deployment := old(State()).deployment.(secretsProviders := provider))
    {
      deployment.secretsProviders := provider;
    }

    method BeginOperation(operationId: int, operation: Operation)
      modifies `incompleteOps
      ensures State() == old(State()).(incomplete := SetOperation(old(State()).incomplete, operationId, operation))
    {
      incompleteOps := SetOperation(incompleteOps, operationId, operation);
    }

    /** What an entry does, apart from a rebuild. */
    method ApplyEffect(entry: EntryRow)
      requires Valid() && Learned(entry) && !entry.kind.RebuiltBaseState?
      modifies `deployment, `newResources, `opIdToNewIdx, `incompleteOps, `toDeleteInSnapshot, `toReplaceInSnapshot,
        `markAsDeletion, `markAsPendingReplacement, `hasRefresh, deployment
      ensures Valid() && HoldsNoMore(entry) && (deployment == old(deployment) || fresh(deployment))
      ensures State() == Effect(old(State()), old(entry.Entry()))
    {
      hide Valid, Succeed, Refreshed, Output, Held, State, SetOperation, DropOperation;
      match entry.kind {
      case Write => if entry.newSnapshot.Some? { TakeSnapshot(entry.newSnapshot.value); }
      case SecretsManager => if entry.secretsProvider.Some? { SetSecretsProvider(entry.secretsProvider); }
      case Begin => if entry.operation.Some? { BeginOperation(entry.operationId, entry.operation.value); }
      case Success => ApplySuccess(entry);
      case Failure => DropIncomplete(entry.operationId);
      case RefreshSuccess => ApplyRefreshSuccess(entry);
      case Outputs => ApplyOutputs(entry);
      case Unknown =>
      }
    }

    ghost method CountEntry()
      modifies `count
      ensures count == old(count) + 1 && State() == old(State()).(count := old(State()).count + 1)
    {
      count := count + 1;
    }

    method Apply(entry: EntryRow)
      requires Valid() && (forall o <- known :: known[o] < count)
      requires entry.State() !! known.Keys && entry.State() !! Held()
      modifies this, deployment, Held()
      ensures Valid() && (forall o <- known :: known[o] < count)
      ensures known.Keys <= old(known.Keys) + entry.State() && HoldsNoMore(entry)
      ensures deployment == old(deployment) || fresh(deployment)
      ensures State() == Step(old(State()), old(entry.Entry()))
    {
      hide Rebuild, Effect, State, Valid, Held;
      if entry.kind.RebuiltBaseState? {
        ApplyRebuilt();
      } else {
        StateCounts();
        Learn(entry);
        ApplyEffect(entry);
        StateCounts();
        CountEntry();
      }
    }
  }

  function States(rows: seq<EntryRow>): set<ResourceObject> {
    set row <- rows, o <- row.State() :: o
  }

  function Entries(rows: seq<EntryRow>): (entries: seq<Entry>)
    reads set row <- rows, o <- row.Objects() :: o
    ensures |entries| == |rows| && forall i :: 0 <= i < |rows| ==> entries[i] == rows[i].Entry()
  {
    if rows == [] then [] else Entries(rows[..|rows| - 1]) + [rows[|rows| - 1].Entry()]
  }

  /** Every row was read on its own, apart from the base. */
  predicate ReadApart(base: DeploymentObject, rows: seq<EntryRow>) {
    && (forall i, j :: 0 <= i < j < |rows| ==> rows[i].State() !! rows[j].State())
    && (forall o <- States(rows) :: o !in base.Listed() && forall row <- rows :: o !in row.Snapshot())
  }

  /** Of the objects given, a replay that has applied `done` rows holds only states of theirs. */
  ghost predicate HoldsOnly(replayer: Replayer, done: seq<EntryRow>, given: set<object>)
    reads replayer
  {
    && replayer !in given && replayer.deployment !in given
    && (forall o <- replayer.Held() :: o in given ==> o in States(done))
    && (forall o <- replayer.known :: o in States(done) && replayer.known[o] < replayer.count)
  }

  lemma NextIsApart(base: DeploymentObject, rows: seq<EntryRow>, i: nat)
    requires ReadApart(base, rows) && i < |rows|
    ensures rows[i].State() !! States(rows[..i]) && States(rows[..i]) <= States(rows)
    ensures States(rows[..i + 1]) == States(rows[..i]) + rows[i].State()
    ensures forall k :: i <= k < |rows| ==> rows[k].Objects() !! States(rows[..i])
    ensures forall o <- base.Listed() :: o !in States(rows[..i])
  {
    assert rows[..i + 1] == rows[..i] + [rows[i]];
  }

  /** The rows from `i` on still hold the entries they held. */
  ghost predicate Ahead(rows: seq<EntryRow>, entries: seq<Entry>, i: nat)
    requires |rows| == |entries|
    reads set row <- rows, o <- row.Objects() :: o
  {
    forall k :: i <= k < |rows| ==> rows[k].Entry() == entries[k]
  }

  lemma NextRun(st: Replay, entries: seq<Entry>, i: nat)
    requires i < |entries|
    ensures Run(st, entries[..i + 1]) == Step(Run(st, entries[..i]), entries[i])
  {
    hide Step;
    assert entries[..i + 1][..i] == entries[..i];
  }

  /** One row is applied; the base and the rows still to come are untouched. */
  method ApplyNext(
      replayer: Replayer, base: DeploymentObject, rows: seq<EntryRow>, i: nat,
      ghost given: set<object>, ghost entries: seq<Entry>)
    requires ReadApart(base, rows) && i < |rows| == |entries| && Ahead(rows, entries, i)
    requires base in given && (forall o <- base.Listed() :: o in given) && forall row <- rows :: row.Objects() <= given
    requires replayer.Valid() && HoldsOnly(replayer, rows[..i], given)
    modifies replayer, replayer.deployment, replayer.Held()
    ensures replayer.Valid() && HoldsOnly(replayer, rows[..i + 1], given)
    ensures replayer.State() == Step(old(replayer.State()), entries[i])
    ensures replayer.deployment == old(replayer.deployment) || fresh(replayer.deployment)
    ensures forall o <- replayer.Held() :: fresh(o) || o in old(replayer.Held()) || o in States(rows)
    ensures base.Value() == old(base.Value()) && Ahead(rows, entries, i + 1)
  {
    hide Replayer.State, Replayer.Valid, Replayer.Held, Step, DeploymentObject.Value, EntryRow.Entry, ReadApart;
    NextIsApart(base, rows, i);
    ghost var touched := {replayer as object, replayer.deployment} + (set o <- replayer.Held() :: o as object);
    assert forall k :: i < k < |rows| ==> rows[k].Objects() !! touched;
    assert base !in touched && forall o <- base.Listed() :: o !in touched;
    replayer.Apply(rows[i]);
  }

  ghost function AllGiven(base: DeploymentObject, rows: seq<EntryRow>): (given: set<object>)
    ensures base in given && (forall o <- base.Listed() :: o in given) && forall row <- rows :: row.Objects() <= given
  {
    {base as object} + (set o <- base.Listed() :: o as object) + (set row <- rows, o <- row.Objects() :: o)
  }

  lemma BaseIsApart(base: DeploymentObject, rows: seq<EntryRow>)
    requires ReadApart(base, rows)
    ensures forall o <- base.Listed() :: o !in States(rows)
  {
  }

  /** A replay that has applied nothing yet. */
  method Begin(base: DeploymentObject, rows: seq<EntryRow>, ghost given: set<object>) returns (replayer: Replayer)
    requires base in given && (forall o <- base.Listed() :: o in given) && forall row <- rows :: row.Objects() <= given
    ensures fresh(replayer) && fresh(replayer.deployment) && replayer.Valid() && replayer.Held() == {}
    ensures HoldsOnly(replayer, rows[..0], given)
    ensures replayer.State() == Run(Start(base.Value(), false), Entries(rows)[..0])
    ensures base.Value() == old(base.Value()) && Ahead(rows, old(Entries(rows)), 0)
  {
    replayer := new Replayer(base);
  }

  method ApplyRows(base: DeploymentObject, rows: seq<EntryRow>, ghost given: set<object>) returns (d: DeploymentObject)
    requires ReadApart(base, rows)
    requires base in given && (forall o <- base.Listed() :: o in given) && forall row <- rows :: row.Objects() <= given
    modifies States(rows)
    ensures fresh(d) && d.Value() == Replayed(old(base.Value()), old(Entries(rows)))
    ensures base.Value() == old(base.Value())
    ensures forall o <- d.Listed() :: fresh(o) || o in States(rows)
  {
    hide Replayer.State, Replayer.Valid, Replayer.Held, Step, Rebuild, DeploymentObject.Value, EntryRow.Entry,
      ReadApart, Run, Ahead, HoldsOnly;
    ghost var was, entries := base.Value(), Entries(rows);
    var replayer := Begin(base, rows, given);
    for i := 0 to |rows|
      invariant fresh(replayer) && fresh(replayer.deployment) && replayer.Valid()
      invariant HoldsOnly(replayer, rows[..i], given)
      invariant forall o <- replayer.Held() :: fresh(o) || o in States(rows)
      invariant replayer.State() == Run(Start(was, false), entries[..i])
      invariant base.Value() == was && Ahead(rows, entries, i)
    {
      NextRun(Start(was, false), entries, i);
      ApplyNext(replayer, base, rows, i, given, entries);
    }
    assert entries[..|rows|] == entries;
    BaseIsApart(base, rows);
    d := replayer.RebuildFromJournal();
  }

  /**
   * The replay of the journal. The documents given, the base and the snapshots, are as they were
   * before; of the objects given only the rows' states may have been pruned.
   */
  method ApplyJournalEntries(base: DeploymentObject, rows: seq<EntryRow>) returns (d: DeploymentObject)
    requires ReadApart(base, rows)
    modifies States(rows)
    ensures fresh(d) && d.Value() == Replayed(old(base.Value()), old(Entries(rows)))
    ensures base.Value() == old(base.Value())
    ensures forall o <- d.Listed() :: fresh(o) || o in States(rows)
  {
    d := ApplyRows(base, rows, AllGiven(base, rows));
  }

  /** A document is read: its objects are its own. */
  method ReadDeployment(d: Deployment) returns (o: DeploymentObject)
    ensures fresh(o) && fresh(o.Listed()) && o.Value() == d
  {
    if d.resources.Some? {
      var objects := NewObjects(d.resources.value);
      o := new DeploymentObject(Some(objects), d.pendingOperations, d.secretsProviders, d.rest);
      assert Values(objects) == d.resources.value;
    } else {
      o := new DeploymentObject(None, d.pendingOperations, d.secretsProviders, d.rest);
    }
  }

  method ReadRow(e: Entry) returns (row: EntryRow)
    ensures fresh(row.Objects()) && row.State() !! row.Snapshot() && row.Entry() == e
  {
    var state: Option<ResourceObject> := None;
    if e.state.Some? {
      var o := new ResourceObject(e.state.value);
      state := Some(o);
    }
    var snapshot: Option<DeploymentObject> := None;
    if e.newSnapshot.Some? {
      var o := ReadDeployment(e.newSnapshot.value);
      snapshot := Some(o);
    }
    row := EntryRow(
      e.kind, e.operationId, state, e.operation, e.secretsProvider, snapshot, e.removeOld, e.removeNew,
      e.pendingReplacementOld, e.pendingReplacementNew, e.deleteOld, e.deleteNew, e.isRefresh, e.elideWrite);
  }

  /** No two rows share an object, and no row's state is listed in its snapshot. */
  ghost predicate OwnObjects(rows: seq<EntryRow>) {
    && (forall i, j :: 0 <= i < j < |rows| ==> rows[i].Objects() !! rows[j].Objects())
    && (forall i :: 0 <= i < |rows| ==> rows[i].State() !! rows[i].Snapshot())
  }

  lemma OwnObjectsAreApart(base: DeploymentObject, rows: seq<EntryRow>)
    requires OwnObjects(rows) && forall row <- rows, o <- row.State() :: o !in base.Listed()
    ensures ReadApart(base, rows)
  {
    forall i, j | 0 <= i < |rows| && 0 <= j < |rows| ensures rows[i].State() !! rows[j].Snapshot() {
      if i < j {
        assert rows[i].Objects() !! rows[j].Objects();
      } else if j < i {
        assert rows[j].Objects() !! rows[i].Objects();
      }
    }
    forall i, j | 0 <= i < j < |rows| ensures rows[i].State() !! rows[j].State() {
      assert rows[i].Objects() !! rows[j].Objects();
    }
  }

  /** The journal is read: every row has objects of its own. */
  method ReadRows(entries: seq<Entry>) returns (rows: seq<EntryRow>)
    ensures OwnObjects(rows) && forall row <- rows :: fresh(row.Objects())
    ensures |rows| == |entries| && Entries(rows) == entries
  {
    hide EntryRow.Entry;
    rows := [];
    for n := 0 to |entries|
      invariant OwnObjects(rows) && |rows| == n
      invariant forall i :: 0 <= i < n ==> fresh(rows[i].Objects()) && rows[i].Entry() == entries[i]
    {
      var row := ReadRow(entries[n]);
      rows := rows + [row];
    }
  }

  /** Read the journal and replay it: no object that existed before is modified. */
  method ReplayStored(base: DeploymentObject, entries: seq<Entry>) returns (d: DeploymentObject)
    ensures fresh(d) && d.Value() == Replayed(old(base.Value()), entries)
    ensures forall o <- d.Listed() :: fresh(o)
  {
    hide EntryRow.Entry, ReadApart, OwnObjects, Replayed;
    var rows := ReadRows(entries);
    assert base.Value() == old(base.Value());
    OwnObjectsAreApart(base, rows);
    d := ApplyJournalEntries(base, rows);
    forall o <- d.Listed() ensures fresh(o) {
      if o in States(rows) {
        var row :| row in rows && o in row.State();
        assert o in row.Objects();
      }
    }
  }
}
