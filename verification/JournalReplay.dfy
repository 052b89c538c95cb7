/**
 * `applyJournalEntries`: the fold over the journal and its laws. The state carries, with every
 * resource, which object it is, because the refresh pass works on objects in place.
 */
module JournalReplay {
  import opened Wrappers
  import opened JournalTypes
  import opened RefreshPass

  /**
   * Where an object comes from: the state of the n-th entry since the last rebuild, a copy made
   * for a slot of new resources, or a copy made of a base resource.
   */
  datatype Origin = StateOf(entry: nat) | NewCopy(slot: nat) | BaseCopy(index: nat)

  datatype Item = Item(origin: Origin, value: Resource)

  /** The pieces of mutable state of one replay; `count` counts entries since the last rebuild. */
  datatype Replay = Replay(
    deployment: Deployment,
    news: seq<Option<Item>>,
    slotOf: map<int, nat>,
    incomplete: seq<(int, Operation)>,
    toDelete: set<int>,
    toReplace: map<int, Item>,
    markDelete: set<int>,
    markPending: set<int>,
    refresh: bool,
    count: nat)

  function Start(base: Deployment, refresh: bool): Replay {
    Replay(base, [], map[], [], {}, map[], {}, {}, refresh, 0)
  }

  // ------------------------------------------------------- operations in progress

  /** Setting a key keeps its place if it has one, and appends it otherwise. */
  function SetOperation(ops: seq<(int, Operation)>, key: int, op: Operation): seq<(int, Operation)> {
    if ops == [] then [(key, op)]
    else if ops[0].0 == key then [(key, op)] + ops[1..]
    else [ops[0]] + SetOperation(ops[1..], key, op)
  }

  function DropOperation(ops: seq<(int, Operation)>, key: int): seq<(int, Operation)> {
    if ops == [] then []
    else if ops[0].0 == key then ops[1..]
    else [ops[0]] + DropOperation(ops[1..], key)
  }

  function OperationsOf(ops: seq<(int, Operation)>): seq<Operation> {
    if ops == [] then [] else [ops[0].1] + OperationsOf(ops[1..])
  }

  function Creating(ops: seq<Operation>): seq<Operation> {
    if ops == [] then []
    else (if ops[0].kind == "creating" then [ops[0]] else []) + Creating(ops[1..])
  }

  // ------------------------------------------------------------------ new resources

  /** What an entry does to the new resource of an operation. */
  datatype Change = Remove | MarkDelete | MarkPending | Become(item: Option<Item>)

  /** The slot afterwards; a mark makes a copy. */
  function Changed(item: Item, slot: nat, change: Change): Option<Item> {
    match change
    case Remove => None
    case MarkDelete => Some(Item(NewCopy(slot), item.value.(delete := Some(true))))
    case MarkPending => Some(Item(NewCopy(slot), item.value.(pendingReplacement := Some(true))))
    case Become(other) => other
  }

  /** Change the slot an operation's resource went to, unless it has been emptied. */
  function Update(st: Replay, operationId: int, change: Change): Replay {
    if operationId in st.slotOf && st.slotOf[operationId] < |st.news| && st.news[st.slotOf[operationId]].Some? then
      var slot := st.slotOf[operationId];
      st.(news := st.news[slot := Changed(st.news[slot].value, slot, change)])
    else st
  }

  function UpdateIf(st: Replay, operationId: Option<int>, change: Change): Replay {
    if operationId.Some? then Update(st, operationId.value, change) else st
  }

  function AddIf(s: set<int>, x: Option<int>): set<int> {
    if x.Some? then s + {x.value} else s
  }

  // ------------------------------------------------------------------------ the fold

  function StateItem(st: Replay, e: Entry): Option<Item> {
    if e.state.Some? then Some(Item(StateOf(st.count), e.state.value)) else None
  }

  function Pushed(st: Replay, e: Entry): Replay {
    if e.state.Some? then
      st.(news := st.news + [StateItem(st, e)], slotOf := st.slotOf[e.operationId := |st.news|])
    else st
  }

  function AfterPush(st: Replay, e: Entry): Replay {
    var st0 := Pushed(st.(incomplete := DropOperation(st.incomplete, e.operationId)), e);
    UpdateIf(st0.(toDelete := AddIf(st0.toDelete, e.removeOld)), e.removeNew, Remove)
  }

  function Succeed(st: Replay, e: Entry): Replay {
    var st0 := AfterPush(st, e);
    var st1 := UpdateIf(st0.(markDelete := AddIf(st0.markDelete, e.deleteOld)), e.deleteNew, MarkDelete);
    var st2 := UpdateIf(st1.(markPending := AddIf(st1.markPending, e.pendingReplacementOld)),
                        e.pendingReplacementNew, MarkPending);
    st2.(refresh := st2.refresh || e.isRefresh)
  }

  /** What a refresh entry does to the base resources. */
  function RefreshedBase(st: Replay, e: Entry): Replay {
    var st0 := st.(incomplete := DropOperation(st.incomplete, e.operationId), refresh := true);
    if e.removeOld.None? then st0
    else if e.state.Some? then
      st0.(toReplace := st0.toReplace[e.removeOld.value := StateItem(st, e).value])
    else st0.(toDelete := st0.toDelete + {e.removeOld.value})
  }

  function Refreshed(st: Replay, e: Entry): Replay {
    UpdateIf(RefreshedBase(st, e), e.removeNew, Become(StateItem(st, e)))
  }

  function Output(st: Replay, e: Entry): Replay {
    if e.state.Some? && e.removeOld.Some? then
      st.(toReplace := st.toReplace[e.removeOld.value := StateItem(st, e).value])
    else if e.state.Some? && e.removeNew.Some? then
      Update(st, e.removeNew.value, Become(StateItem(st, e)))
    else st
  }

  /** One entry, apart from the entry count. */
  function Effect(st: Replay, e: Entry): Replay {
    match e.kind
    case Write => if e.newSnapshot.Some? then st.(deployment := e.newSnapshot.value) else st
    case SecretsManager =>
      if e.secretsProvider.Some? then st.(deployment := st.deployment.(secretsProviders := e.secretsProvider)) else st
    case Begin =>
      if e.operation.Some? then
        st.(incomplete := SetOperation(st.incomplete, e.operationId, e.operation.value))
      else st
    case Success => Succeed(st, e)
    case Failure => st.(incomplete := DropOperation(st.incomplete, e.operationId))
    case RefreshSuccess => Refreshed(st, e)
    case Outputs => Output(st, e)
    case RebuiltBaseState => st
    case Unknown => st
  }

  function Step(st: Replay, e: Entry): Replay {
    if e.kind.RebuiltBaseState? then Start(Rebuild(st), st.refresh)
    else Effect(st, e).(count := st.count + 1)
  }

  function Run(st: Replay, entries: seq<Entry>): Replay {
    if entries == [] then st else Step(Run(st, entries[..|entries| - 1]), entries[|entries| - 1])
  }

  /** The replay of a journal on a base, when a refresh may already have been seen. */
  function ReplayFrom(base: Deployment, refresh: bool, entries: seq<Entry>): Deployment {
    Rebuild(Run(Start(base, refresh), entries))
  }

  function Replayed(base: Deployment, entries: seq<Entry>): Deployment {
    ReplayFrom(base, false, entries)
  }

  // --------------------------------------------------------------------- the rebuild

  function Present(news: seq<Option<Item>>): seq<Item> {
    if news == [] then []
    else Present(news[..|news| - 1])
         + if news[|news| - 1].Some? then [news[|news| - 1].value] else []
  }

  function BaseResources(d: Deployment): seq<Resource> {
    if d.resources.Some? then d.resources.value else []
  }

  function BasePending(d: Deployment): seq<Operation> {
    if d.pendingOperations.Some? then d.pendingOperations.value else []
  }

  /** Base resource `i` with its replacement and its marks; a mark makes a copy. */
  function BaseItem(st: Replay, i: nat): Item
    requires i < |BaseResources(st.deployment)|
  {
    var item := if i in st.toReplace then st.toReplace[i]
                else Item(BaseCopy(i), BaseResources(st.deployment)[i]);
    var item1 := if i in st.markPending then Item(BaseCopy(i), item.value.(pendingReplacement := Some(true))) else item;
    if i in st.markDelete then Item(BaseCopy(i), item1.value.(delete := Some(true))) else item1
  }

  function BaseItems(st: Replay, n: nat): seq<Item>
    requires n <= |BaseResources(st.deployment)|
  {
    if n == 0 then [] else BaseItems(st, n - 1) + if n - 1 in st.toDelete then [] else [BaseItem(st, n - 1)]
  }

  function Items(st: Replay): seq<Item> {
    Present(st.news) + BaseItems(st, |BaseResources(st.deployment)|)
  }

  function Origins(items: seq<Item>): seq<Origin> {
    seq(|items|, i requires 0 <= i < |items| => items[i].origin)
  }

  function ValuesOf(items: seq<Item>): seq<Resource> {
    seq(|items|, i requires 0 <= i < |items| => items[i].value)
  }

  function Rebuild(st: Replay): Deployment {
    var items := Items(st);
    st.deployment.(
      resources := Some(if st.refresh then Pass(Origins(items), ValuesOf(items)) else ValuesOf(items)),
      pendingOperations := Some(OperationsOf(st.incomplete) + Creating(BasePending(st.deployment))))
  }

  // ---------------------------------------------------------------------- cut laws

  lemma {:induction false} RunAppend(st: Replay, xs: seq<Entry>, ys: seq<Entry>)
    ensures Run(st, xs + ys) == Run(Run(st, xs), ys)
  {
    hide Step;
    if ys == [] {
      assert xs + ys == xs;
    } else {
      var zs := xs + ys;
      assert zs[..|zs| - 1] == xs + ys[..|ys| - 1];
      RunAppend(st, xs, ys[..|ys| - 1]);
    }
  }

  /** Whether a refresh has been seen after the entries. */
  function RefreshSeen(refresh: bool, entries: seq<Entry>): bool {
    refresh || exists e <- entries :: e.kind.RefreshSuccess? || (e.kind.Success? && e.isRefresh)
  }

  lemma StepFlag(st: Replay, e: Entry)
    ensures Step(st, e).refresh == RefreshSeen(st.refresh, [e])
  {
    assert e in [e];
  }

  lemma {:induction false} RefreshFlag(st: Replay, entries: seq<Entry>)
    ensures Run(st, entries).refresh == RefreshSeen(st.refresh, entries)
  {
    hide Step;
    if entries != [] {
      var init, e := entries[..|entries| - 1], entries[|entries| - 1];
      RefreshFlag(st, init);
      StepFlag(Run(st, init), e);
      assert entries == init + [e];
    }
  }

  predicate IsRebuilt(e: Entry) { e.kind.RebuiltBaseState? }

  lemma StepAtCut(st: Replay, cut: Entry)
    requires IsRebuilt(cut)
    ensures Run(st, [cut]) == Start(Rebuild(st), st.refresh)
  {
    assert [cut][..0] == [];
  }

  /**
   * A rebuild of the base state cuts the journal: what follows is replayed on the result of what
   * came before, and only the refresh flag is carried across.
   */
  lemma {:induction false} JournalCut(base: Deployment, refresh: bool, xs: seq<Entry>, cut: Entry, ys: seq<Entry>)
    requires IsRebuilt(cut)
    ensures ReplayFrom(base, refresh, xs + [cut] + ys)
         == ReplayFrom(ReplayFrom(base, refresh, xs), RefreshSeen(refresh, xs), ys)
  {
    hide Step, Rebuild;
    var st := Start(base, refresh);
    RunAppend(st, xs + [cut], ys);
    RunAppend(st, xs, [cut]);
    StepAtCut(Run(st, xs), cut);
    RefreshFlag(st, xs);
  }

  /** A deployment nothing has happened to is rebuilt from copies of its own resources. */
  lemma {:induction false} UntouchedItems(d: Deployment, refresh: bool, n: nat)
    requires n <= |BaseResources(d)|
    ensures var items := BaseItems(Start(d, refresh), n);
            |items| == n && forall i :: 0 <= i < n ==> items[i] == Item(BaseCopy(i), BaseResources(d)[i])
  {
    if n > 0 { UntouchedItems(d, refresh, n - 1); }
  }

  lemma RebuildCloses(st: Replay)
    requires st.refresh
    ensures Closed(BaseResources(Rebuild(st)))
  {
    PassCloses(Origins(Items(st)), ValuesOf(Items(st)));
  }

  lemma UntouchedList(d: Deployment, refresh: bool)
    ensures var items := Items(Start(d, refresh));
            && ValuesOf(items) == BaseResources(d) && |Origins(items)| == |BaseResources(d)| == |items|
            && forall i, j :: 0 <= i < j < |Origins(items)| ==> Origins(items)[i] != Origins(items)[j]
  {
    hide BaseItems, BaseResources;
    var st, rs := Start(d, refresh), BaseResources(d);
    UntouchedItems(d, refresh, |rs|);
    assert Items(st) == BaseItems(st, |rs|);
    CopiesInOrder(BaseItems(st, |rs|), rs);
  }

  lemma CopiesInOrder(items: seq<Item>, rs: seq<Resource>)
    requires |items| == |rs| && forall i :: 0 <= i < |rs| ==> items[i] == Item(BaseCopy(i), rs[i])
    ensures ValuesOf(items) == rs && |Origins(items)| == |rs|
    ensures forall i, j :: 0 <= i < j < |Origins(items)| ==> Origins(items)[i] != Origins(items)[j]
  {
  }

  lemma UntouchedRebuild(d: Deployment, refresh: bool)
    requires d.resources.Some? && d.pendingOperations.Some? && (refresh ==> Closed(d.resources.value))
    ensures Rebuild(Start(d, refresh)) == d.(pendingOperations := Some(Creating(d.pendingOperations.value)))
  {
    hide Creating, Pass, Closed, Items, ValuesOf, Origins;
    UntouchedList(d, refresh);
    if refresh { PassKeepsClosed(Origins(Items(Start(d, refresh))), d.resources.value); }
    assert [] + Creating(d.pendingOperations.value) == Creating(d.pendingOperations.value);
  }

  lemma RebuildTwice(st: Replay)
    ensures var once, twice := Rebuild(st), Rebuild(Start(Rebuild(st), st.refresh));
            && once.pendingOperations.Some?
            && twice == once.(pendingOperations := Some(Creating(once.pendingOperations.value)))
  {
    hide Creating, Pass, Items;
    if st.refresh { RebuildCloses(st); }
    UntouchedRebuild(Rebuild(st), st.refresh);
  }

  /** One more rebuild at the end keeps the resources, and of the pending operations the creations. */
  lemma {:induction false} OneMoreRebuild(base: Deployment, refresh: bool, xs: seq<Entry>, cut: Entry)
    requires IsRebuilt(cut)
    ensures var once := ReplayFrom(base, refresh, xs);
            && once.pendingOperations.Some?
            && ReplayFrom(base, refresh, xs + [cut])
               == once.(pendingOperations := Some(Creating(once.pendingOperations.value)))
  {
    hide Step;
    var st := Start(base, refresh);
    RunAppend(st, xs, [cut]);
    StepAtCut(Run(st, xs), cut);
    RebuildTwice(Run(st, xs));
  }

  /** After a replay that saw a refresh, references point backwards and parents are listed. */
  lemma {:induction false} RefreshClosure(base: Deployment, refresh: bool, entries: seq<Entry>)
    requires RefreshSeen(refresh, entries)
    ensures Closed(BaseResources(ReplayFrom(base, refresh, entries)))
  {
    hide Step;
    RefreshFlag(Start(base, refresh), entries);
    RebuildCloses(Run(Start(base, refresh), entries));
  }

  // ------------------------------------------------------------- one object, one value

  /**
   * Objects of one origin carry one value: entry states are those of `values`, a copy for a slot
   * stands in that slot, and only entry states replace base resources.
   */
  ghost predicate Consistent(st: Replay, values: map<nat, Resource>) {
    && (forall j :: 0 <= j < |st.news| ==> FitsSlot(values, j, st.news[j]))
    && (forall i :: i in st.toReplace ==> IsState(values, st.toReplace[i]))
    && (forall o :: o in st.slotOf ==> st.slotOf[o] < |st.news|)
  }

  ghost predicate IsState(values: map<nat, Resource>, item: Item) {
    item.origin.StateOf? && item.origin.entry in values && values[item.origin.entry] == item.value
  }

  /** What may stand in slot `slot` of the new resources. */
  ghost predicate FitsSlot(values: map<nat, Resource>, slot: nat, item: Option<Item>) {
    item.Some? ==>
      && (item.value.origin.StateOf? ==> IsState(values, item.value))
      && !item.value.origin.BaseCopy?
      && (item.value.origin.NewCopy? ==> item.value.origin.slot == slot)
  }

  ghost predicate Older(values: map<nat, Resource>, n: nat) {
    forall k :: k in values ==> k < n
  }

  lemma UpdateKeeps(st: Replay, values: map<nat, Resource>, o: Option<int>, change: Change)
    requires Consistent(st, values)
    requires change.Become? && change.item.Some? ==> IsState(values, change.item.value)
    ensures Consistent(UpdateIf(st, o, change), values)
  {
  }

  /** The states known after an entry. */
  ghost function Learn(values: map<nat, Resource>, st: Replay, e: Entry): map<nat, Resource> {
    if e.kind.RebuiltBaseState? then map[]
    else if e.state.Some? then values[st.count := e.state.value]
    else values
  }

  lemma SucceedKeeps(st: Replay, values: map<nat, Resource>, e: Entry)
    requires Consistent(st, values)
    requires e.state.Some? ==> st.count in values && values[st.count] == e.state.value
    ensures Consistent(Succeed(st, e), values)
  {
    var pushed := Pushed(st.(incomplete := DropOperation(st.incomplete, e.operationId)), e);
    assert Consistent(pushed, values);
    UpdateKeeps(pushed.(toDelete := AddIf(pushed.toDelete, e.removeOld)), values, e.removeNew, Remove);
    var st0 := AfterPush(st, e);
    var marked := st0.(markDelete := AddIf(st0.markDelete, e.deleteOld));
    UpdateKeeps(marked, values, e.deleteNew, MarkDelete);
    var st1 := UpdateIf(marked, e.deleteNew, MarkDelete);
    UpdateKeeps(st1.(markPending := AddIf(st1.markPending, e.pendingReplacementOld)), values,
                e.pendingReplacementNew, MarkPending);
  }

  lemma EffectKeeps(st: Replay, values: map<nat, Resource>, e: Entry)
    requires Consistent(st, values)
    requires e.state.Some? ==> st.count in values && values[st.count] == e.state.value
    ensures Consistent(Effect(st, e), values)
  {
    hide Succeed, Update;
    match e.kind
    case Success => SucceedKeeps(st, values, e);
    case RefreshSuccess =>
      assert Consistent(RefreshedBase(st, e), values);
      UpdateKeeps(RefreshedBase(st, e), values, e.removeNew, Become(StateItem(st, e)));
    case Outputs =>
      if e.state.Some? && e.removeOld.None? && e.removeNew.Some? {
        UpdateKeeps(st, values, e.removeNew, Become(StateItem(st, e)));
        assert UpdateIf(st, e.removeNew, Become(StateItem(st, e))) == Output(st, e);
      }
    case _ =>
  }

  lemma StepKeeps(st: Replay, values: map<nat, Resource>, e: Entry)
    requires Consistent(st, values) && Older(values, st.count)
    ensures Consistent(Step(st, e), Learn(values, st, e)) && Older(Learn(values, st, e), Step(st, e).count)
  {
    hide Effect;
    if !e.kind.RebuiltBaseState? {
      var values' := Learn(values, st, e);
      assert Consistent(st, values');
      EffectKeeps(st, values', e);
    }
  }

  /** Places of one object hold one value. */
  ghost predicate OneValuePerObject(items: seq<Item>) {
    forall i, j :: 0 <= i < |items| && 0 <= j < |items| && items[i].origin == items[j].origin ==> items[i] == items[j]
  }

  lemma {:induction false} PresentComesFrom(news: seq<Option<Item>>, p: nat) returns (j: nat)
    requires p < |Present(news)|
    ensures j < |news| && news[j] == Some(Present(news)[p])
  {
    var init := news[..|news| - 1];
    if p < |Present(init)| {
      j := PresentComesFrom(init, p);
    } else {
      j := |news| - 1;
    }
  }

  lemma {:induction false} BaseComesFrom(st: Replay, n: nat, p: nat) returns (i: nat)
    requires n <= |BaseResources(st.deployment)| && p < |BaseItems(st, n)|
    ensures i < n && BaseItems(st, n)[p] == BaseItem(st, i)
  {
    if p < |BaseItems(st, n - 1)| {
      i := BaseComesFrom(st, n - 1, p);
    } else {
      i := n - 1;
    }
  }

  /** An item of the list is a known state, the copy in its slot, or the copy of a base index. */
  ghost predicate Placed(st: Replay, values: map<nat, Resource>, item: Item) {
    match item.origin
    case StateOf(k) => IsState(values, item)
    case NewCopy(j) => j < |st.news| && st.news[j] == Some(item)
    case BaseCopy(i) => i < |BaseResources(st.deployment)| && item == BaseItem(st, i)
  }

  lemma ItemsArePlaced(st: Replay, values: map<nat, Resource>)
    requires Consistent(st, values)
    ensures forall p :: 0 <= p < |Items(st)| ==> Placed(st, values, Items(st)[p])
  {
    forall p | 0 <= p < |Items(st)| ensures Placed(st, values, Items(st)[p]) {
      var kept := |Present(st.news)|;
      if p < kept {
        var j := PresentComesFrom(st.news, p);
        assert FitsSlot(values, j, st.news[j]);
      } else {
        var i := BaseComesFrom(st, |BaseResources(st.deployment)|, p - kept);
        if i in st.toReplace { assert IsState(values, st.toReplace[i]); }
      }
    }
  }

  lemma ItemsShareValues(st: Replay, values: map<nat, Resource>)
    requires Consistent(st, values)
    ensures OneValuePerObject(Items(st))
  {
    hide Items;
    ItemsArePlaced(st, values);
    var items := Items(st);
    forall i, j | 0 <= i < |items| && 0 <= j < |items| && items[i].origin == items[j].origin
      ensures items[i] == items[j]
    {
      assert Placed(st, values, items[i]) && Placed(st, values, items[j]);
    }
  }

  lemma {:induction false} RunIsConsistent(base: Deployment, refresh: bool, entries: seq<Entry>)
    returns (values: map<nat, Resource>)
    ensures var st := Run(Start(base, refresh), entries); Consistent(st, values) && Older(values, st.count)
  {
    hide Step, Consistent, Learn;
    if entries == [] {
      values := map[];
      StartIsConsistent(base, refresh);
    } else {
      var init, e := entries[..|entries| - 1], entries[|entries| - 1];
      var before := RunIsConsistent(base, refresh, init);
      StepKeeps(Run(Start(base, refresh), init), before, e);
      values := Learn(before, Run(Start(base, refresh), init), e);
    }
  }

  lemma StartIsConsistent(base: Deployment, refresh: bool)
    ensures Consistent(Start(base, refresh), map[])
  {
  }

  /** In every replay the places of the list that hold one object hold one value. */
  lemma RunSharesValues(base: Deployment, refresh: bool, entries: seq<Entry>)
    ensures OneValuePerObject(Items(Run(Start(base, refresh), entries)))
  {
    hide Run, Items, OneValuePerObject;
    var values := RunIsConsistent(base, refresh, entries);
    ItemsShareValues(Run(Start(base, refresh), entries), values);
  }
}
