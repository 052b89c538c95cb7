/**
 * What a replay lists and what it leaves pending, told from the journal alone: the entries since
 * the last rebuild of the base state decide, by their kinds and operation ids.
 */
module JournalOutput {
  import opened Wrappers
  import opened JournalTypes
  import opened RefreshPass
  import opened JournalReplay

  ghost predicate NoCut(entries: seq<Entry>) {
    forall i :: 0 <= i < |entries| ==> !IsRebuilt(entries[i])
  }

  // ---------------------------------------------------------------- new resources

  /** A success with a state brings a new resource. */
  predicate Brings(e: Entry) {
    e.kind.Success? && e.state.Some?
  }

  function BroughtCount(entries: seq<Entry>): nat {
    if entries == [] then 0
    else BroughtCount(entries[..|entries| - 1]) + if Brings(entries[|entries| - 1]) then 1 else 0
  }

  /** Which of the new resources an operation id means: the last one the operation brought. */
  function Meant(entries: seq<Entry>, operationId: int): Option<nat> {
    if entries == [] then None
    else
      var init, e := entries[..|entries| - 1], entries[|entries| - 1];
      if Brings(e) && e.operationId == operationId then Some(BroughtCount(init)) else Meant(init, operationId)
  }

  /** A success, or a refresh that found nothing, removes what it names. */
  predicate Removes(e: Entry) {
    e.kind.Success? || (e.kind.RefreshSuccess? && e.state.None?)
  }

  ghost predicate RemovesNewAt(entries: seq<Entry>, m: nat, j: nat)
    requires m < |entries|
  {
    var e := entries[m];
    Removes(e) && e.removeNew.Some? && Meant(entries[..m + 1], e.removeNew.value) == Some(j)
  }

  /** New resource `j` is removed by some entry. */
  ghost predicate NewRemoved(entries: seq<Entry>, j: nat) {
    exists m :: 0 <= m < |entries| && RemovesNewAt(entries, m, j)
  }

  lemma {:induction false} NewRemovedStep(entries: seq<Entry>, j: nat)
    requires entries != []
    ensures NewRemoved(entries, j)
        <==> NewRemoved(entries[..|entries| - 1], j) || RemovesNewAt(entries, |entries| - 1, j)
  {
    var init := entries[..|entries| - 1];
    assert entries[..|entries|] == entries;
    forall m | 0 <= m < |init| ensures RemovesNewAt(entries, m, j) <==> RemovesNewAt(init, m, j) {
      assert entries[..m + 1] == init[..m + 1];
    }
    if NewRemoved(init, j) {
      var m :| 0 <= m < |init| && RemovesNewAt(init, m, j);
      assert RemovesNewAt(entries, m, j);
    }
  }

  /** A removed new resource stays removed, whatever follows. */
  lemma {:induction false} RemovedForGood(entries: seq<Entry>, more: seq<Entry>, j: nat)
    requires NewRemoved(entries, j)
    ensures NewRemoved(entries + more, j)
  {
    var m :| 0 <= m < |entries| && RemovesNewAt(entries, m, j);
    assert (entries + more)[..m + 1] == entries[..m + 1];
    assert RemovesNewAt(entries + more, m, j);
  }

  lemma UpdateTouchesNews(st: Replay, o: Option<int>, change: Change)
    ensures var u := UpdateIf(st, o, change); u == st.(news := u.news)
  {
  }

  /** What a success does apart from the slots. */
  lemma SucceedOnRest(st: Replay, e: Entry)
    ensures var t := Succeed(st, e);
            && t.deployment == st.deployment && t.toDelete == AddIf(st.toDelete, e.removeOld)
            && t.incomplete == DropOperation(st.incomplete, e.operationId)
  {
    hide UpdateIf;
    var pushed := Pushed(st.(incomplete := DropOperation(st.incomplete, e.operationId)), e);
    UpdateTouchesNews(pushed.(toDelete := AddIf(pushed.toDelete, e.removeOld)), e.removeNew, Remove);
    var st0 := AfterPush(st, e);
    var marked := st0.(markDelete := AddIf(st0.markDelete, e.deleteOld));
    UpdateTouchesNews(marked, e.deleteNew, MarkDelete);
    var st1 := UpdateIf(marked, e.deleteNew, MarkDelete);
    UpdateTouchesNews(st1.(markPending := AddIf(st1.markPending, e.pendingReplacementOld)),
                      e.pendingReplacementNew, MarkPending);
  }

  lemma UpdateNews(st: Replay, o: Option<int>, change: Change)
    requires forall x :: x in st.slotOf ==> st.slotOf[x] < |st.news|
    ensures var u := UpdateIf(st, o, change);
            && u == st.(news := u.news) && |u.news| == |st.news|
            && forall j :: 0 <= j < |st.news| ==>
                 (u.news[j].None? <==>
                   || st.news[j].None?
                   || (o.Some? && o.value in st.slotOf && st.slotOf[o.value] == j
                       && (change.Remove? || change == Become(None))))
  {
  }

  /** What one entry does to the slots of new resources. */
  lemma EffectOnNews(st: Replay, e: Entry)
    requires forall x :: x in st.slotOf ==> st.slotOf[x] < |st.news|
    requires !IsRebuilt(e)
    ensures var t := Step(st, e);
            && t.slotOf == (if Brings(e) then st.slotOf[e.operationId := |st.news|] else st.slotOf)
            && |t.news| == |st.news| + (if Brings(e) then 1 else 0)
            && forall j :: 0 <= j < |t.news| ==>
                 (t.news[j].None? <==>
                   || (j < |st.news| && st.news[j].None?)
                   || (Removes(e) && e.removeNew.Some? && e.removeNew.value in t.slotOf
                       && t.slotOf[e.removeNew.value] == j))
  {
    hide UpdateIf;
    match e.kind
    case Success =>
      SucceedOnNews(st, e);
    case RefreshSuccess =>
      UpdateNews(RefreshedBase(st, e), e.removeNew, Become(StateItem(st, e)));
    case Outputs =>
      UpdateNews(st, e.removeNew, Become(StateItem(st, e)));
      OutputIsUpdate(st, e);
    case _ =>
  }

  lemma OutputIsUpdate(st: Replay, e: Entry)
    ensures Output(st, e).news == st.news || Output(st, e) == UpdateIf(st, e.removeNew, Become(StateItem(st, e)))
    ensures Output(st, e).slotOf == st.slotOf && (Output(st, e).news != st.news ==> e.state.Some?)
  {
  }

  lemma SucceedOnNews(st: Replay, e: Entry)
    requires forall x :: x in st.slotOf ==> st.slotOf[x] < |st.news|
    requires e.kind.Success?
    ensures var t := Succeed(st, e);
            && t.slotOf == (if Brings(e) then st.slotOf[e.operationId := |st.news|] else st.slotOf)
            && |t.news| == |st.news| + (if Brings(e) then 1 else 0)
            && forall j :: 0 <= j < |t.news| ==>
                 (t.news[j].None? <==>
                   || (j < |st.news| && st.news[j].None?)
                   || (e.removeNew.Some? && e.removeNew.value in t.slotOf && t.slotOf[e.removeNew.value] == j))
  {
    hide UpdateIf;
    var pushed := Pushed(st.(incomplete := DropOperation(st.incomplete, e.operationId)), e);
    UpdateNews(pushed.(toDelete := AddIf(pushed.toDelete, e.removeOld)), e.removeNew, Remove);
    var st0 := AfterPush(st, e);
    var marked := st0.(markDelete := AddIf(st0.markDelete, e.deleteOld));
    UpdateNews(marked, e.deleteNew, MarkDelete);
    var st1 := UpdateIf(marked, e.deleteNew, MarkDelete);
    UpdateNews(st1.(markPending := AddIf(st1.markPending, e.pendingReplacementOld)),
               e.pendingReplacementNew, MarkPending);
  }

  /** Slots are the resources brought, in order; a slot is empty exactly when it was removed. */
  lemma {:induction false} SlotsAre(base: Deployment, refresh: bool, entries: seq<Entry>)
    requires NoCut(entries)
    ensures var st := Run(Start(base, refresh), entries);
            && |st.news| == BroughtCount(entries)
            && (forall o :: o in st.slotOf <==> Meant(entries, o).Some?)
            && (forall o :: o in st.slotOf ==> Meant(entries, o) == Some(st.slotOf[o]) && st.slotOf[o] < |st.news|)
            && (forall j :: 0 <= j < |st.news| ==> (st.news[j].None? <==> NewRemoved(entries, j)))
  {
    hide Step;
    if entries != [] {
      var init, e := entries[..|entries| - 1], entries[|entries| - 1];
      SlotsAre(base, refresh, init);
      var st, t := Run(Start(base, refresh), init), Run(Start(base, refresh), entries);
      EffectOnNews(st, e);
      assert entries[..|entries|] == entries;
      forall j | 0 <= j < |t.news| ensures t.news[j].None? <==> NewRemoved(entries, j) {
        NewRemovedStep(entries, j);
        if j >= |st.news| { NotYetMeant(init, j); }
      }
    }
  }

  /** What has not been brought cannot have been removed. */
  lemma {:induction false} NotYetMeant(entries: seq<Entry>, j: nat)
    requires j >= BroughtCount(entries)
    ensures !NewRemoved(entries, j)
    ensures forall o :: Meant(entries, o) != Some(j)
  {
    if entries != [] {
      NotYetMeant(entries[..|entries| - 1], j);
      NewRemovedStep(entries, j);
      assert entries[..|entries|] == entries;
      assert forall o :: Meant(entries, o) != Some(j);
    }
  }

  // --------------------------------------------------------------- base resources

  /** Base index `i` is removed by some entry. */
  ghost predicate BaseRemoved(entries: seq<Entry>, i: int) {
    exists m :: 0 <= m < |entries| && Removes(entries[m]) && entries[m].removeOld == Some(i)
  }

  lemma EffectOnDeleted(st: Replay, e: Entry)
    requires !IsRebuilt(e)
    ensures Step(st, e).toDelete
         == if Removes(e) && e.removeOld.Some? then st.toDelete + {e.removeOld.value} else st.toDelete
  {
    hide Succeed, Rebuild, Items;
    SucceedOnRest(st, e);
  }

  lemma EffectOnHeader(st: Replay, e: Entry)
    requires !IsRebuilt(e)
    ensures var d := Step(st, e).deployment;
            if e.kind.Write? && e.newSnapshot.Some? then d == e.newSnapshot.value
            else if e.kind.SecretsManager? && e.secretsProvider.Some? then
              d == st.deployment.(secretsProviders := e.secretsProvider)
            else d == st.deployment
  {
    hide Succeed, Rebuild, Items;
    SucceedOnRest(st, e);
  }

  lemma EffectOnBase(st: Replay, e: Entry)
    requires !IsRebuilt(e)
    ensures BaseResources(Step(st, e).deployment)
         == if e.kind.Write? && e.newSnapshot.Some? then BaseResources(e.newSnapshot.value)
            else BaseResources(st.deployment)
  {
    hide Step;
    EffectOnHeader(st, e);
  }

  lemma {:induction false} DeletedAre(base: Deployment, refresh: bool, entries: seq<Entry>)
    requires NoCut(entries)
    ensures forall i :: i in Run(Start(base, refresh), entries).toDelete <==> BaseRemoved(entries, i)
  {
    hide Step;
    if entries != [] {
      var init, e := entries[..|entries| - 1], entries[|entries| - 1];
      DeletedAre(base, refresh, init);
      EffectOnDeleted(Run(Start(base, refresh), init), e);
      forall i ensures BaseRemoved(entries, i)
                  <==> BaseRemoved(init, i) || (Removes(e) && e.removeOld == Some(i))
      {
        if BaseRemoved(init, i) {
          var m :| 0 <= m < |init| && Removes(init[m]) && init[m].removeOld == Some(i);
          assert entries[m] == init[m];
        }
        if Removes(e) && e.removeOld == Some(i) { assert entries[|entries| - 1] == e; }
      }
    }
  }

  /** The resources the journal works on: those of the last snapshot written, or the base's. */
  function WorkingBase(base: Deployment, entries: seq<Entry>): seq<Resource> {
    if entries == [] then BaseResources(base)
    else
      var e := entries[|entries| - 1];
      if e.kind.Write? && e.newSnapshot.Some? then BaseResources(e.newSnapshot.value)
      else WorkingBase(base, entries[..|entries| - 1])
  }

  lemma {:induction false} WorkingBaseIs(base: Deployment, refresh: bool, entries: seq<Entry>)
    requires NoCut(entries)
    ensures BaseResources(Run(Start(base, refresh), entries).deployment) == WorkingBase(base, entries)
  {
    hide Step;
    if entries != [] {
      WorkingBaseIs(base, refresh, entries[..|entries| - 1]);
      EffectOnBase(Run(Start(base, refresh), entries[..|entries| - 1]), entries[|entries| - 1]);
    }
  }

  /** The pending operations the journal works on: those of the last snapshot written, or the base's. */
  function WorkingPending(base: Deployment, entries: seq<Entry>): seq<Operation> {
    if entries == [] then BasePending(base)
    else
      var e := entries[|entries| - 1];
      if e.kind.Write? && e.newSnapshot.Some? then BasePending(e.newSnapshot.value)
      else WorkingPending(base, entries[..|entries| - 1])
  }

  lemma EffectOnBasePending(st: Replay, e: Entry)
    requires !IsRebuilt(e)
    ensures BasePending(Step(st, e).deployment)
         == if e.kind.Write? && e.newSnapshot.Some? then BasePending(e.newSnapshot.value)
            else BasePending(st.deployment)
  {
    hide Step;
    EffectOnHeader(st, e);
  }

  lemma {:induction false} WorkingPendingIs(base: Deployment, refresh: bool, entries: seq<Entry>)
    requires NoCut(entries)
    ensures BasePending(Run(Start(base, refresh), entries).deployment) == WorkingPending(base, entries)
  {
    hide Step;
    if entries != [] {
      WorkingPendingIs(base, refresh, entries[..|entries| - 1]);
      EffectOnBasePending(Run(Start(base, refresh), entries[..|entries| - 1]), entries[|entries| - 1]);
    }
  }

  // ------------------------------------------------------------- the listed result

  /** The new resources that are kept, in the order they were brought. */
  ghost function KeptNew(entries: seq<Entry>, n: nat): (r: seq<nat>)
    ensures forall p :: 0 <= p < |r| ==> r[p] < n && !NewRemoved(entries, r[p])
    ensures forall j: nat :: j < n && !NewRemoved(entries, j) ==> j in r
    ensures forall p, q :: 0 <= p < q < |r| ==> r[p] < r[q]
  {
    if n == 0 then [] else KeptNew(entries, n - 1) + if NewRemoved(entries, n - 1) then [] else [n - 1]
  }

  /** The base indices that are kept, in base order. */
  ghost function KeptBase(entries: seq<Entry>, n: nat): (r: seq<nat>)
    ensures forall p :: 0 <= p < |r| ==> r[p] < n && !BaseRemoved(entries, r[p])
    ensures forall i: nat :: i < n && !BaseRemoved(entries, i) ==> i in r
    ensures forall p, q :: 0 <= p < q < |r| ==> r[p] < r[q]
  {
    if n == 0 then [] else KeptBase(entries, n - 1) + if BaseRemoved(entries, n - 1) then [] else [n - 1]
  }

  lemma {:induction false} PresentAreKept(news: seq<Option<Item>>, entries: seq<Entry>, n: nat)
    requires n <= |news| && forall j :: 0 <= j < |news| ==> (news[j].None? <==> NewRemoved(entries, j))
    ensures |Present(news[..n])| == |KeptNew(entries, n)|
    ensures forall p :: 0 <= p < |KeptNew(entries, n)| ==> news[KeptNew(entries, n)[p]] == Some(Present(news[..n])[p])
  {
    hide NewRemoved;
    if n > 0 {
      PresentAreKept(news, entries, n - 1);
      assert news[..n][..n - 1] == news[..n - 1];
    }
  }

  lemma {:induction false} BaseItemsAreKept(st: Replay, entries: seq<Entry>, n: nat)
    requires n <= |BaseResources(st.deployment)|
    requires forall i :: i in st.toDelete <==> BaseRemoved(entries, i)
    ensures |BaseItems(st, n)| == |KeptBase(entries, n)|
    ensures forall p :: 0 <= p < |KeptBase(entries, n)| ==> BaseItems(st, n)[p] == BaseItem(st, KeptBase(entries, n)[p])
  {
    hide BaseItem, BaseResources, BaseRemoved;
    if n > 0 {
      BaseItemsAreKept(st, entries, n - 1);
      var before, kept := BaseItems(st, n - 1), KeptBase(entries, n - 1);
      if BaseRemoved(entries, n - 1) {
        assert BaseItems(st, n) == before && KeptBase(entries, n) == kept;
      } else {
        assert BaseItems(st, n) == before + [BaseItem(st, n - 1)] && KeptBase(entries, n) == kept + [n - 1];
      }
    }
  }

  lemma ItemsOf(st: Replay, entries: seq<Entry>)
    requires forall j :: 0 <= j < |st.news| ==> (st.news[j].None? <==> NewRemoved(entries, j))
    requires forall i :: i in st.toDelete <==> BaseRemoved(entries, i)
    ensures var kept := KeptNew(entries, |st.news|);
            var rest := KeptBase(entries, |BaseResources(st.deployment)|);
            && |Items(st)| == |kept| + |rest|
            && (forall p :: 0 <= p < |kept| ==> st.news[kept[p]] == Some(Items(st)[p]))
            && (forall q :: 0 <= q < |rest| ==> Items(st)[|kept| + q] == BaseItem(st, rest[q]))
  {
    hide BaseItem, NewRemoved, BaseRemoved, BaseResources, KeptNew, KeptBase, BaseItems, Present;
    var n := |BaseResources(st.deployment)|;
    var first, second := Present(st.news), BaseItems(st, n);
    var kept, rest := KeptNew(entries, |st.news|), KeptBase(entries, n);
    assert st.news[..|st.news|] == st.news;
    PresentAreKept(st.news, entries, |st.news|);
    BaseItemsAreKept(st, entries, n);
    assert Items(st) == first + second;
    forall q | 0 <= q < |rest| ensures Items(st)[|kept| + q] == BaseItem(st, rest[q]) {
      assert (first + second)[|first| + q] == second[q];
    }
  }

  /** The list before the refresh pass. */
  lemma ItemsAre(base: Deployment, refresh: bool, entries: seq<Entry>)
    requires NoCut(entries)
    ensures var st := Run(Start(base, refresh), entries);
            var kept := KeptNew(entries, BroughtCount(entries));
            var rest := KeptBase(entries, |WorkingBase(base, entries)|);
            && |Items(st)| == |kept| + |rest| && |st.news| == BroughtCount(entries)
            && BaseResources(st.deployment) == WorkingBase(base, entries)
            && (forall p :: 0 <= p < |kept| ==> st.news[kept[p]] == Some(Items(st)[p]))
            && (forall q :: 0 <= q < |rest| ==> Items(st)[|kept| + q] == BaseItem(st, rest[q]))
  {
    hide Run, Items, BaseItem, NewRemoved, BaseRemoved, BroughtCount, WorkingBase, KeptNew, KeptBase;
    SlotsAre(base, refresh, entries);
    DeletedAre(base, refresh, entries);
    WorkingBaseIs(base, refresh, entries);
    ItemsOf(Run(Start(base, refresh), entries), entries);
  }

  /**
   * The result of a replay lists the new resources that were not removed, in success order, and
   * behind them the base resources that were not removed, in base order, each exactly once.
   * Without a refresh they are listed as they stand; a refresh only takes references away.
   */
  lemma {:induction false} ResultLists(base: Deployment, refresh: bool, entries: seq<Entry>)
    requires NoCut(entries)
    ensures var st := Run(Start(base, refresh), entries);
            var rs := BaseResources(ReplayFrom(base, refresh, entries));
            var kept := KeptNew(entries, BroughtCount(entries));
            var rest := KeptBase(entries, |WorkingBase(base, entries)|);
            && |rs| == |kept| + |rest| && |st.news| == BroughtCount(entries)
            && BaseResources(st.deployment) == WorkingBase(base, entries)
            && (forall p :: 0 <= p < |kept| ==>
                  st.news[kept[p]].Some? && ListedAs(rs[p], st.news[kept[p]].value.value,
                      RefreshSeen(refresh, entries)))
            && (forall q :: 0 <= q < |rest| ==>
                  ListedAs(rs[|kept| + q], BaseItem(st, rest[q]).value, RefreshSeen(refresh, entries)))
  {
    hide Run, Pass, BaseItem, Items, KeptNew, KeptBase;
    ItemsAre(base, refresh, entries);
    RefreshFlag(Start(base, refresh), entries);
    RebuildLists(Run(Start(base, refresh), entries));
  }

  /** A resource is listed as it stands, or, after a refresh, with fewer references. */
  ghost predicate ListedAs(listed: Resource, r: Resource, refreshed: bool) {
    if refreshed then OnlyFewer(listed, r) else listed == r
  }

  lemma RebuildLists(st: Replay)
    ensures var rs := BaseResources(Rebuild(st));
            |rs| == |Items(st)| && forall p :: 0 <= p < |rs| ==> ListedAs(rs[p], Items(st)[p].value, st.refresh)
  {
    hide Items, OnlyFewer;
    if st.refresh {
      forall p | 0 <= p < |Items(st)|
        ensures OnlyFewer(BaseResources(Rebuild(st))[p], Items(st)[p].value)
      {
        PassOnlyDrops(Origins(Items(st)), ValuesOf(Items(st)), p);
      }
    }
  }

  // ------------------------------------------------------------ pending operations

  /** The entry decides whether operation `key` is in progress. */
  predicate Settles(e: Entry, key: int) {
    e.operationId == key
    && ((e.kind.Begin? && e.operation.Some?) || e.kind.Success? || e.kind.Failure? || e.kind.RefreshSuccess?)
  }

  predicate BeginsWith(e: Entry, key: int, op: Operation) {
    e.kind.Begin? && e.operationId == key && e.operation == Some(op)
  }

  /** The last entry that decides on `key` is a beginning with `op`. */
  ghost predicate InProgress(entries: seq<Entry>, key: int, op: Operation) {
    exists m :: 0 <= m < |entries| && BeginsWith(entries[m], key, op)
                && forall n :: m < n < |entries| ==> !Settles(entries[n], key)
  }

  ghost predicate UniqueKeys(ops: seq<(int, Operation)>) {
    forall i, j :: 0 <= i < j < |ops| ==> ops[i].0 != ops[j].0
  }

  lemma {:induction false} SetOperationHolds(ops: seq<(int, Operation)>, key: int, op: Operation)
    requires UniqueKeys(ops)
    ensures UniqueKeys(SetOperation(ops, key, op))
    ensures forall o :: o in SetOperation(ops, key, op) <==> o == (key, op) || (o.0 != key && o in ops)
  {
    if ops != [] && ops[0].0 != key {
      SetOperationHolds(ops[1..], key, op);
      assert ops == [ops[0]] + ops[1..];
      assert forall i :: 0 < i < |ops| ==> ops[0].0 != ops[i].0;
      var r := SetOperation(ops[1..], key, op);
      forall i | 0 <= i < |r| ensures r[i].0 != ops[0].0 {
        assert r[i] in r;
      }
    } else if ops != [] {
      assert ops == [ops[0]] + ops[1..];
    }
  }

  lemma {:induction false} DropOperationHolds(ops: seq<(int, Operation)>, key: int)
    requires UniqueKeys(ops)
    ensures UniqueKeys(DropOperation(ops, key))
    ensures forall o :: o in DropOperation(ops, key) <==> o.0 != key && o in ops
  {
    if ops != [] {
      assert ops == [ops[0]] + ops[1..];
      if ops[0].0 != key {
        DropOperationHolds(ops[1..], key);
        var r := DropOperation(ops[1..], key);
        forall i | 0 <= i < |r| ensures r[i].0 != ops[0].0 {
          assert r[i] in r;
        }
      }
    }
  }

  lemma EffectOnPending(st: Replay, e: Entry)
    requires !IsRebuilt(e)
    ensures Step(st, e).incomplete
         == if e.kind.Begin? && e.operation.Some? then SetOperation(st.incomplete, e.operationId, e.operation.value)
            else if e.kind.Success? || e.kind.Failure? || e.kind.RefreshSuccess? then
              DropOperation(st.incomplete, e.operationId)
            else st.incomplete
  {
    hide Succeed;
    SucceedOnRest(st, e);
  }

  lemma {:induction false} InProgressStep(entries: seq<Entry>, key: int, op: Operation)
    requires entries != []
    ensures var e := entries[|entries| - 1];
            InProgress(entries, key, op)
            <==> BeginsWith(e, key, op) || (!Settles(e, key) && InProgress(entries[..|entries| - 1], key, op))
  {
    var init, e := entries[..|entries| - 1], entries[|entries| - 1];
    if InProgress(entries, key, op) && !BeginsWith(e, key, op) {
      var m :| 0 <= m < |entries| && BeginsWith(entries[m], key, op)
               && forall n :: m < n < |entries| ==> !Settles(entries[n], key);
      assert init[m] == entries[m];
    }
    if InProgress(init, key, op) && !Settles(e, key) {
      var m :| 0 <= m < |init| && BeginsWith(init[m], key, op)
               && forall n :: m < n < |init| ==> !Settles(init[n], key);
      assert entries[m] == init[m];
      assert forall n :: m < n < |init| ==> entries[n] == init[n];
    }
  }

  /**
   * An operation of the journal is pending exactly when the last entry since the last rebuild
   * that decides on it is its beginning; and no key is pending twice.
   */
  lemma {:induction false} IncompleteExactly(base: Deployment, refresh: bool, entries: seq<Entry>)
    requires NoCut(entries)
    ensures var ops := Run(Start(base, refresh), entries).incomplete;
            UniqueKeys(ops) && forall key, op :: (key, op) in ops <==> InProgress(entries, key, op)
  {
    hide Step;
    if entries != [] {
      var init, e := entries[..|entries| - 1], entries[|entries| - 1];
      IncompleteExactly(base, refresh, init);
      var st := Run(Start(base, refresh), init);
      EffectOnPending(st, e);
      if e.kind.Begin? && e.operation.Some? {
        SetOperationHolds(st.incomplete, e.operationId, e.operation.value);
      } else {
        DropOperationHolds(st.incomplete, e.operationId);
      }
      forall key, op
        ensures (key, op) in Run(Start(base, refresh), entries).incomplete <==> InProgress(entries, key, op)
      {
        InProgressStep(entries, key, op);
      }
    }
  }

  /**
   * The pending operations of the result are the journal's operations in progress, each exactly
   * when its last deciding entry is its beginning and no key twice, and behind them the creating
   * operations of the deployment the journal works on, in their order.
   */
  lemma PendingExactly(base: Deployment, refresh: bool, entries: seq<Entry>)
    requires NoCut(entries)
    ensures var ops := Run(Start(base, refresh), entries).incomplete;
            && UniqueKeys(ops)
            && (forall key, op :: (key, op) in ops <==> InProgress(entries, key, op))
            && ReplayFrom(base, refresh, entries).pendingOperations
               == Some(OperationsOf(ops) + Creating(WorkingPending(base, entries)))
  {
    hide Run, Items, Pass, InProgress, UniqueKeys;
    IncompleteExactly(base, refresh, entries);
    WorkingPendingIs(base, refresh, entries);
  }

  /** Where the beginning stands since which operation `key` has been in progress, or -1. */
  function InProgressSince(entries: seq<Entry>, key: int): (at: int)
    ensures -1 <= at < |entries|
  {
    if entries == [] then -1
    else
      var init, e := entries[..|entries| - 1], entries[|entries| - 1];
      var before := InProgressSince(init, key);
      if !Settles(e, key) then before
      else if !e.kind.Begin? then -1
      else if before >= 0 then before
      else |init|
  }

  /** The keys stand in the order of what `at` says of them, which is no less than zero. */
  ghost predicate Ordered(ops: seq<(int, Operation)>, at: int -> int) {
    && (forall i :: 0 <= i < |ops| ==> at(ops[i].0) >= 0)
    && forall i, j :: 0 <= i < j < |ops| ==> at(ops[i].0) < at(ops[j].0)
  }

  lemma {:induction false} SetKeepsPlace(ops: seq<(int, Operation)>, key: int, op: Operation)
    ensures var r := SetOperation(ops, key, op);
            && |ops| <= |r| <= |ops| + 1
            && (forall i :: 0 <= i < |ops| ==> r[i].0 == ops[i].0)
            && (|r| == |ops| <==> exists i :: 0 <= i < |ops| && ops[i].0 == key)
            && (|r| > |ops| ==> r[|ops|].0 == key)
  {
    if ops != [] && ops[0].0 != key {
      SetKeepsPlace(ops[1..], key, op);
      if i :| 0 <= i < |ops| && ops[i].0 == key { assert ops[1..][i - 1].0 == key; }
    }
  }

  lemma {:induction false} DropKeepsOrder(ops: seq<(int, Operation)>, key: int, at: int -> int)
    requires Ordered(ops, at)
    ensures Ordered(DropOperation(ops, key), at)
  {
    hide Ordered;
    if ops != [] {
      TailIsOrdered(ops, at);
      if ops[0].0 != key {
        var rest := DropOperation(ops[1..], key);
        DropKeepsOrder(ops[1..], key, at);
        DropOperationHolds(ops[1..], key);
        ConsIsOrdered(ops[0], rest, ops[1..], at);
      }
    }
  }

  lemma TailIsOrdered(ops: seq<(int, Operation)>, at: int -> int)
    requires Ordered(ops, at) && ops != []
    ensures Ordered(ops[1..], at) && UniqueKeys(ops[1..]) && at(ops[0].0) >= 0
    ensures forall o <- ops[1..] :: at(ops[0].0) < at(o.0)
  {
    var tail := ops[1..];
    assert forall i :: 0 <= i < |tail| ==> tail[i] == ops[i + 1];
  }

  lemma ConsIsOrdered(o: (int, Operation), rest: seq<(int, Operation)>, ops: seq<(int, Operation)>, at: int -> int)
    requires Ordered(rest, at) && at(o.0) >= 0
    requires (forall p <- ops :: at(o.0) < at(p.0)) && forall p <- rest :: p in ops
    ensures Ordered([o] + rest, at)
  {
    var r := [o] + rest;
    forall i, j | 0 <= i < j < |r| ensures at(r[i].0) < at(r[j].0) {
      assert r[j] == rest[j - 1] && rest[j - 1] in ops;
      if i > 0 { assert r[i] == rest[i - 1]; }
    }
  }

  ghost predicate HasKey(ops: seq<(int, Operation)>, key: int) {
    exists i :: 0 <= i < |ops| && ops[i].0 == key
  }

  /** Exactly the keys in progress, in order. */
  ghost predicate Placed(ops: seq<(int, Operation)>, at: int -> int) {
    Ordered(ops, at) && forall key :: at(key) >= 0 ==> HasKey(ops, key)
  }

  lemma SetPlaces(ops: seq<(int, Operation)>, key: int, op: Operation, at: int -> int, after: int -> int, n: int)
    requires Placed(ops, at) && n >= 0 && forall k :: at(k) < n
    requires forall k :: after(k) == if k == key && at(key) < 0 then n else at(k)
    ensures Placed(SetOperation(ops, key, op), after)
  {
    hide SetOperation;
    var r := SetOperation(ops, key, op);
    SetKeepsPlace(ops, key, op);
    forall k | after(k) >= 0 ensures HasKey(r, k) {
      if at(k) >= 0 {
        var i :| 0 <= i < |ops| && ops[i].0 == k;
        assert r[i].0 == k;
      } else {
        assert r[|ops|].0 == key;
      }
    }
  }

  lemma DropPlaces(ops: seq<(int, Operation)>, key: int, at: int -> int, after: int -> int)
    requires Placed(ops, at) && forall k :: after(k) == if k == key then -1 else at(k)
    ensures Placed(DropOperation(ops, key), after)
  {
    hide DropOperation;
    var r := DropOperation(ops, key);
    DropKeepsOrder(ops, key, at);
    assert UniqueKeys(ops);
    DropOperationHolds(ops, key);
    forall i | 0 <= i < |r| ensures r[i].0 != key { assert r[i] in r; }
    forall k | after(k) >= 0 ensures HasKey(r, k) {
      var i :| 0 <= i < |ops| && ops[i].0 == k;
      assert ops[i] in r;
    }
  }

  lemma {:induction false} InProgressAre(base: Deployment, refresh: bool, entries: seq<Entry>)
    requires NoCut(entries)
    ensures Placed(Run(Start(base, refresh), entries).incomplete, key => InProgressSince(entries, key))
  {
    hide Step, SetOperation, DropOperation, Placed;
    if entries == [] {
      NothingPlaced(key => InProgressSince(entries, key));
    } else {
      var init, e := entries[..|entries| - 1], entries[|entries| - 1];
      InProgressAre(base, refresh, init);
      var ops := Run(Start(base, refresh), init).incomplete;
      var at, after := key => InProgressSince(init, key), key => InProgressSince(entries, key);
      EffectOnPending(Run(Start(base, refresh), init), e);
      if e.kind.Begin? && e.operation.Some? {
        SetPlaces(ops, e.operationId, e.operation.value, at, after, |init|);
      } else if Settles(e, e.operationId) {
        DropPlaces(ops, e.operationId, at, after);
      } else {
        SamePlaces(ops, at, after);
      }
    }
  }

  lemma NothingPlaced(at: int -> int)
    requires forall k :: at(k) < 0
    ensures Placed([], at)
  {
  }

  lemma SamePlaces(ops: seq<(int, Operation)>, at: int -> int, after: int -> int)
    requires Placed(ops, at) && forall k :: after(k) == at(k)
    ensures Placed(ops, after)
  {
    forall i | 0 <= i < |ops| ensures after(ops[i].0) == at(ops[i].0) {
      var key := ops[i].0;
      assert after(key) == at(key);
    }
  }

  /** The journal's pending operations stand in the order in which they have been in progress. */
  lemma PendingInOrder(base: Deployment, refresh: bool, entries: seq<Entry>, i: nat, j: nat)
    requires NoCut(entries) && i < j < |Run(Start(base, refresh), entries).incomplete|
    ensures var ops := Run(Start(base, refresh), entries).incomplete;
            0 <= InProgressSince(entries, ops[i].0) < InProgressSince(entries, ops[j].0)
  {
    hide Run;
    InProgressAre(base, refresh, entries);
  }

  // ------------------------------------------------------------- the other members

  /** The secrets provider: that of the last entry that gives one or writes a snapshot, or the base's. */
  function WorkingProvider(base: Deployment, entries: seq<Entry>): Option<string> {
    if entries == [] then base.secretsProviders
    else
      var e := entries[|entries| - 1];
      if e.kind.Write? && e.newSnapshot.Some? then e.newSnapshot.value.secretsProviders
      else if e.kind.SecretsManager? && e.secretsProvider.Some? then e.secretsProvider
      else WorkingProvider(base, entries[..|entries| - 1])
  }

  /** The members the replay does not look at: those of the last snapshot written, or the base's. */
  function WorkingRest(base: Deployment, entries: seq<Entry>): string {
    if entries == [] then base.rest
    else
      var e := entries[|entries| - 1];
      if e.kind.Write? && e.newSnapshot.Some? then e.newSnapshot.value.rest
      else WorkingRest(base, entries[..|entries| - 1])
  }

  lemma {:induction false} HeaderIs(base: Deployment, refresh: bool, entries: seq<Entry>)
    requires NoCut(entries)
    ensures var d := Run(Start(base, refresh), entries).deployment;
            d.secretsProviders == WorkingProvider(base, entries) && d.rest == WorkingRest(base, entries)
  {
    hide Step;
    if entries != [] {
      HeaderIs(base, refresh, entries[..|entries| - 1]);
      EffectOnHeader(Run(Start(base, refresh), entries[..|entries| - 1]), entries[|entries| - 1]);
    }
  }

  /** The secrets provider and all other members of the result are the last ones the journal gives. */
  lemma ResultHeader(base: Deployment, refresh: bool, entries: seq<Entry>)
    requires NoCut(entries)
    ensures var result := ReplayFrom(base, refresh, entries);
            && result.resources.Some?
            && result.secretsProviders == WorkingProvider(base, entries) && result.rest == WorkingRest(base, entries)
  {
    hide Run, Items, Pass;
    HeaderIs(base, refresh, entries);
  }
}
