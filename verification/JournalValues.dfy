/**
 * Which value every listed resource has, told from the journal alone: the last state an entry has
 * given it since the last rebuild of the base state, with the marks made on it since.
 */
module JournalValues {
  import opened Wrappers
  import opened JournalTypes
  import opened RefreshPass
  import opened JournalReplay
  import opened JournalOutput

  /** A resource with the marks that were made on it. */
  function Marked(r: Resource, pending: bool, deleted: bool): Resource {
    r.(
      pendingReplacement := if pending then Some(true) else r.pendingReplacement,
      delete := if deleted then Some(true) else r.delete)
  }

  // ---------------------------------------------------------------- base resources

  /** The entry gives base resource `i` a state. */
  predicate GivesBase(e: Entry, i: int) {
    (e.kind.Outputs? || e.kind.RefreshSuccess?) && e.state.Some? && e.removeOld == Some(i)
  }

  predicate PendsBase(e: Entry, i: int) {
    e.kind.Success? && e.pendingReplacementOld == Some(i)
  }

  predicate DeletesBase(e: Entry, i: int) {
    e.kind.Success? && e.deleteOld == Some(i)
  }

  ghost predicate SomeEntry(entries: seq<Entry>, named: Entry -> bool) {
    exists m :: 0 <= m < |entries| && named(entries[m])
  }

  /** `r` is the state of the last entry that gives base resource `i` one, or what it was. */
  ghost predicate BaseState(entries: seq<Entry>, i: int, was: Resource, r: Resource) {
    if SomeEntry(entries, e => GivesBase(e, i)) then
      exists m :: 0 <= m < |entries| && GivesBase(entries[m], i) && entries[m].state == Some(r)
                  && forall n :: m < n < |entries| ==> !GivesBase(entries[n], i)
    else r == was
  }

  /** What base resource `i` is listed as before the refresh pass. */
  ghost predicate BaseValue(entries: seq<Entry>, i: int, was: Resource, r: Resource) {
    exists given: Resource :: BaseState(entries, i, was, given)
      && r == Marked(given, SomeEntry(entries, e => PendsBase(e, i)), SomeEntry(entries, e => DeletesBase(e, i)))
  }

  lemma {:induction false} SomeEntryStep(entries: seq<Entry>, named: Entry -> bool)
    requires entries != []
    ensures SomeEntry(entries, named)
        <==> SomeEntry(entries[..|entries| - 1], named) || named(entries[|entries| - 1])
  {
    var init := entries[..|entries| - 1];
    if SomeEntry(init, named) {
      var m :| 0 <= m < |init| && named(init[m]);
      assert named(entries[m]);
    }
  }

  /** What an entry does to the replacement and the marks of base index `i`. */
  predicate BaseFollows(st: Replay, e: Entry, t: Replay, i: int) {
    && (i in t.toReplace <==> i in st.toReplace || GivesBase(e, i))
    && (i in t.toReplace ==>
          t.toReplace[i].value == if GivesBase(e, i) then e.state.value else st.toReplace[i].value)
    && (i in t.markPending <==> i in st.markPending || PendsBase(e, i))
    && (i in t.markDelete <==> i in st.markDelete || DeletesBase(e, i))
  }

  lemma SuccessOnBase(st: Replay, e: Entry, i: int)
    requires e.kind.Success?
    ensures BaseFollows(st, e, Succeed(st, e), i)
  {
    hide Succeed;
    SucceedOnMarks(st, e);
  }

  lemma RefreshOnBase(st: Replay, e: Entry, i: int)
    requires e.kind.RefreshSuccess?
    ensures BaseFollows(st, e, Refreshed(st, e), i)
  {
    hide Refreshed;
    OthersOnMarks(st, e);
  }

  lemma OutputOnBase(st: Replay, e: Entry, i: int)
    requires e.kind.Outputs?
    ensures BaseFollows(st, e, Output(st, e), i)
  {
    hide Output;
    OthersOnMarks(st, e);
  }

  lemma EffectOnReplaced(st: Replay, e: Entry, i: int)
    requires !IsRebuilt(e)
    ensures BaseFollows(st, e, Step(st, e), i)
  {
    hide Rebuild, Succeed, Refreshed, Output;
    match e.kind
    case Success => SuccessOnBase(st, e, i);
    case RefreshSuccess => RefreshOnBase(st, e, i);
    case Outputs => OutputOnBase(st, e, i);
    case _ =>
  }

  lemma OthersOnMarks(st: Replay, e: Entry)
    ensures var t := Refreshed(st, e);
            && t.markDelete == st.markDelete && t.markPending == st.markPending
            && t.toReplace == RefreshedBase(st, e).toReplace
    ensures var t := Output(st, e);
            && t.markDelete == st.markDelete && t.markPending == st.markPending
            && t.toReplace == if e.state.Some? && e.removeOld.Some? then
                                st.toReplace[e.removeOld.value := StateItem(st, e).value] else st.toReplace
  {
    hide UpdateIf;
    UpdateTouchesNews(RefreshedBase(st, e), e.removeNew, Become(StateItem(st, e)));
  }

  lemma SucceedOnMarks(st: Replay, e: Entry)
    ensures var t := Succeed(st, e);
            && t.toReplace == st.toReplace
            && t.markDelete == AddIf(st.markDelete, e.deleteOld)
            && t.markPending == AddIf(st.markPending, e.pendingReplacementOld)
  {
    hide UpdateIf;
    var pushed := Pushed(st.(incomplete := DropOperation(st.incomplete, e.operationId)), e);
    UpdateTouchesNews(pushed.(toDelete := AddIf(pushed.toDelete, e.removeOld)), e.removeNew, Remove);
    var st0 := AfterPush(st, e);
    var marked := st0.(markDelete := AddIf(st0.markDelete, e.deleteOld));
    UpdateTouchesNews(marked, e.deleteNew, MarkDelete);
    var st1 := UpdateIf(marked, e.deleteNew, MarkDelete);
    UpdateTouchesNews(st1.(markPending := AddIf(st1.markPending, e.pendingReplacementOld)),
                      e.pendingReplacementNew, MarkPending);
  }

  lemma BaseStateStep(entries: seq<Entry>, i: int, was: Resource, r: Resource)
    requires entries != []
    ensures var e := entries[|entries| - 1];
            BaseState(entries, i, was, r)
            <==> if GivesBase(e, i) then e.state == Some(r) else BaseState(entries[..|entries| - 1], i, was, r)
  {
    hide GivesBase;
    var init, e := entries[..|entries| - 1], entries[|entries| - 1];
    SomeEntryStep(entries, e => GivesBase(e, i));
    if BaseState(init, i, was, r) && SomeEntry(init, e => GivesBase(e, i)) && !GivesBase(e, i) {
      var m :| 0 <= m < |init| && GivesBase(init[m], i) && init[m].state == Some(r)
               && forall n :: m < n < |init| ==> !GivesBase(init[n], i);
      assert entries[m] == init[m] && forall n :: m < n < |init| ==> entries[n] == init[n];
      assert BaseState(entries, i, was, r);
    }
    if BaseState(entries, i, was, r) && SomeEntry(entries, e => GivesBase(e, i)) {
      var m :| 0 <= m < |entries| && GivesBase(entries[m], i) && entries[m].state == Some(r)
               && forall n :: m < n < |entries| ==> !GivesBase(entries[n], i);
      if !GivesBase(e, i) {
        assert init[m] == entries[m] && forall n :: m < n < |init| ==> entries[n] == init[n];
        assert BaseState(init, i, was, r);
      }
    }
  }

  /** What the replay holds for the base indices is what the entries say. */
  lemma {:induction false} ReplacedAre(base: Deployment, refresh: bool, entries: seq<Entry>, i: int, was: Resource)
    requires NoCut(entries)
    ensures var st := Run(Start(base, refresh), entries);
            && BaseState(entries, i, was, if i in st.toReplace then st.toReplace[i].value else was)
            && (i in st.toReplace <==> SomeEntry(entries, e => GivesBase(e, i)))
            && (i in st.markPending <==> SomeEntry(entries, e => PendsBase(e, i)))
            && (i in st.markDelete <==> SomeEntry(entries, e => DeletesBase(e, i)))
  {
    hide Step;
    if entries != [] {
      var init, e := entries[..|entries| - 1], entries[|entries| - 1];
      ReplacedAre(base, refresh, init, i, was);
      EffectOnReplaced(Run(Start(base, refresh), init), e, i);
      SomeEntryStep(entries, e => GivesBase(e, i));
      SomeEntryStep(entries, e => PendsBase(e, i));
      SomeEntryStep(entries, e => DeletesBase(e, i));
      var st := Run(Start(base, refresh), entries);
      BaseStateStep(entries, i, was, if i in st.toReplace then st.toReplace[i].value else was);
    }
  }

  // ----------------------------------------------------------------- new resources

  /** The entry gives the new resource it names a state. */
  predicate GivesLater(e: Entry) {
    e.state.Some? && (e.kind.RefreshSuccess? || (e.kind.Outputs? && e.removeOld.None?))
  }

  /** The operation id means new resource `j` as of entry `m`. */
  ghost predicate Means(entries: seq<Entry>, m: nat, operationId: Option<int>, j: nat)
    requires m < |entries|
  {
    operationId.Some? && Meant(entries[..m + 1], operationId.value) == Some(j)
  }

  /** Entry `m` brings new resource `j`, or gives it another state. */
  ghost predicate GivesNewAt(entries: seq<Entry>, m: nat, j: nat)
    requires m < |entries|
  {
    || (Brings(entries[m]) && BroughtCount(entries[..m]) == j)
    || (GivesLater(entries[m]) && Means(entries, m, entries[m].removeNew, j))
  }

  ghost predicate PendsNewAt(entries: seq<Entry>, m: nat, j: nat)
    requires m < |entries|
  {
    entries[m].kind.Success? && Means(entries, m, entries[m].pendingReplacementNew, j)
  }

  ghost predicate DeletesNewAt(entries: seq<Entry>, m: nat, j: nat)
    requires m < |entries|
  {
    entries[m].kind.Success? && Means(entries, m, entries[m].deleteNew, j)
  }

  ghost predicate LastGiven(entries: seq<Entry>, m: nat, j: nat) {
    m < |entries| && GivesNewAt(entries, m, j) && forall n: nat :: m < n < |entries| ==> !GivesNewAt(entries, n, j)
  }

  ghost predicate PendedSince(entries: seq<Entry>, m: nat, j: nat) {
    exists n: nat :: m <= n < |entries| && PendsNewAt(entries, n, j)
  }

  ghost predicate DeletedSince(entries: seq<Entry>, m: nat, j: nat) {
    exists n: nat :: m <= n < |entries| && DeletesNewAt(entries, n, j)
  }

  /** `r` is the last state given to new resource `j` with the marks made on it since. */
  ghost predicate NewValue(entries: seq<Entry>, j: nat, r: Resource) {
    exists m: nat :: LastGiven(entries, m, j) && entries[m].state.Some?
      && r == Marked(entries[m].state.value, PendedSince(entries, m, j), DeletedSince(entries, m, j))
  }

  predicate Names(st: Replay, operationId: Option<int>, j: nat) {
    operationId.Some? && operationId.value in st.slotOf && st.slotOf[operationId.value] == j
  }

  predicate SlotsExist(st: Replay) {
    forall x :: x in st.slotOf ==> st.slotOf[x] < |st.news|
  }

  /** What changing the slot an operation names does to the value in slot `j`. */
  lemma UpdateOnValue(st: Replay, o: Option<int>, change: Change, j: nat)
    requires SlotsExist(st) && j < |st.news| && UpdateIf(st, o, change).news[j].Some?
    ensures st.news[j].Some?
    ensures UpdateIf(st, o, change).news[j].value.value ==
            if !Names(st, o, j) then st.news[j].value.value
            else match change
                 case Remove => st.news[j].value.value
                 case MarkDelete => Marked(st.news[j].value.value, false, true)
                 case MarkPending => Marked(st.news[j].value.value, true, false)
                 case Become(other) => if other.Some? then other.value.value else st.news[j].value.value
  {
  }

  /** Slot `j` after an entry holds what the entry gives it, or what it held, with the entry's marks. */
  ghost predicate SlotFollows(st: Replay, e: Entry, t: Replay, j: nat)
    requires j < |t.news| && t.news[j].Some?
  {
    var given := (Brings(e) && j == |st.news|) || (GivesLater(e) && Names(t, e.removeNew, j));
    && (given || (j < |st.news| && st.news[j].Some?))
    && t.news[j].value.value ==
         Marked(if given then e.state.value else st.news[j].value.value,
           e.kind.Success? && Names(t, e.pendingReplacementNew, j), e.kind.Success? && Names(t, e.deleteNew, j))
  }

  lemma PushOnValue(st: Replay, e: Entry, j: nat)
    requires SlotsExist(st) && e.kind.Success? && j < |AfterPush(st, e).news| && AfterPush(st, e).news[j].Some?
    ensures (Brings(e) && j == |st.news|) || (j < |st.news| && st.news[j].Some?)
    ensures AfterPush(st, e).news[j].value.value ==
            if Brings(e) && j == |st.news| then e.state.value else st.news[j].value.value
  {
    hide UpdateIf;
    var pushed := Pushed(st.(incomplete := DropOperation(st.incomplete, e.operationId)), e);
    var doomed := pushed.(toDelete := AddIf(pushed.toDelete, e.removeOld));
    UpdateNews(doomed, e.removeNew, Remove);
    UpdateOnValue(doomed, e.removeNew, Remove, j);
  }

  lemma SucceedOnValue(st: Replay, e: Entry, j: nat)
    requires SlotsExist(st) && e.kind.Success?
    requires j < |Succeed(st, e).news| && Succeed(st, e).news[j].Some?
    ensures SlotFollows(st, e, Succeed(st, e), j)
  {
    hide UpdateIf, AfterPush;
    var st0 := AfterPush(st, e);
    var marked := st0.(markDelete := AddIf(st0.markDelete, e.deleteOld));
    var st1 := UpdateIf(marked, e.deleteNew, MarkDelete);
    var pended := st1.(markPending := AddIf(st1.markPending, e.pendingReplacementOld));
    PushKeepsSlots(st, e);
    UpdateNews(marked, e.deleteNew, MarkDelete);
    UpdateNews(pended, e.pendingReplacementNew, MarkPending);
    UpdateOnValue(pended, e.pendingReplacementNew, MarkPending, j);
    UpdateOnValue(marked, e.deleteNew, MarkDelete, j);
    PushOnValue(st, e, j);
  }

  lemma PushKeepsSlots(st: Replay, e: Entry)
    requires SlotsExist(st)
    ensures SlotsExist(AfterPush(st, e)) && |AfterPush(st, e).news| == |st.news| + if e.state.Some? then 1 else 0
  {
    hide UpdateIf;
    var pushed := Pushed(st.(incomplete := DropOperation(st.incomplete, e.operationId)), e);
    UpdateNews(pushed.(toDelete := AddIf(pushed.toDelete, e.removeOld)), e.removeNew, Remove);
  }

  lemma StepOnValue(st: Replay, e: Entry, j: nat)
    requires SlotsExist(st) && !IsRebuilt(e) && j < |Step(st, e).news| && Step(st, e).news[j].Some?
    ensures SlotFollows(st, e, Step(st, e), j)
  {
    hide Succeed, UpdateIf, Output, Rebuild;
    match e.kind
    case Success => SucceedOnValue(st, e, j);
    case RefreshSuccess => LaterOnValue(st, RefreshedBase(st, e), e, j);
    case Outputs =>
      OutputUpdates(st, e);
      if e.state.Some? && e.removeOld.None? { LaterOnValue(st, st, e, j); }
    case _ =>
  }

  lemma LaterOnValue(st: Replay, st0: Replay, e: Entry, j: nat)
    requires SlotsExist(st) && st0.news == st.news && st0.slotOf == st.slotOf
    requires !e.kind.Success? && (e.kind.RefreshSuccess? || GivesLater(e))
    requires var t := UpdateIf(st0, e.removeNew, Become(StateItem(st, e))); j < |t.news| && t.news[j].Some?
    ensures SlotFollows(st, e, UpdateIf(st0, e.removeNew, Become(StateItem(st, e))), j)
  {
    hide UpdateIf;
    UpdateNews(st0, e.removeNew, Become(StateItem(st, e)));
    UpdateOnValue(st0, e.removeNew, Become(StateItem(st, e)), j);
  }

  lemma OutputUpdates(st: Replay, e: Entry)
    ensures if e.state.Some? && e.removeOld.None? then
              Output(st, e) == UpdateIf(st, e.removeNew, Become(StateItem(st, e)))
            else Output(st, e).news == st.news && Output(st, e).slotOf == st.slotOf
  {
  }

  lemma NewStatePrefix(entries: seq<Entry>, m: nat, j: nat)
    requires m + 1 < |entries|
    ensures var init := entries[..|entries| - 1];
            && (GivesNewAt(init, m, j) <==> GivesNewAt(entries, m, j))
            && (PendsNewAt(init, m, j) <==> PendsNewAt(entries, m, j))
            && (DeletesNewAt(init, m, j) <==> DeletesNewAt(entries, m, j))
  {
    var init := entries[..|entries| - 1];
    assert init[..m + 1] == entries[..m + 1] && init[..m] == entries[..m] && init[m] == entries[m];
  }

  /** The entry that gave a state last before `e` still did if `e` gives none, and marks accumulate. */
  lemma NewValueStep(entries: seq<Entry>, j: nat, r: Resource)
    requires entries != []
    requires GivesNewAt(entries, |entries| - 1, j) ==> entries[|entries| - 1].state == Some(r)
    requires !GivesNewAt(entries, |entries| - 1, j) ==> NewValue(entries[..|entries| - 1], j, r)
    ensures var last := |entries| - 1;
            NewValue(entries, j, Marked(r, PendsNewAt(entries, last, j), DeletesNewAt(entries, last, j)))
  {
    hide GivesNewAt, PendsNewAt, DeletesNewAt;
    var init, last := entries[..|entries| - 1], |entries| - 1;
    var m: nat;
    if GivesNewAt(entries, last, j) {
      m := last;
    } else {
      m :| LastGiven(init, m, j) && init[m].state.Some?
           && r == Marked(init[m].state.value, PendedSince(init, m, j), DeletedSince(init, m, j));
      forall n: nat | n < last
        ensures GivesNewAt(init, n, j) <==> GivesNewAt(entries, n, j)
        ensures PendsNewAt(init, n, j) <==> PendsNewAt(entries, n, j)
        ensures DeletesNewAt(init, n, j) <==> DeletesNewAt(entries, n, j)
      {
        NewStatePrefix(entries, n, j);
      }
      assert PendedSince(entries, m, j) <==> PendedSince(init, m, j) || PendsNewAt(entries, last, j);
      assert DeletedSince(entries, m, j) <==> DeletedSince(init, m, j) || DeletesNewAt(entries, last, j);
    }
    assert LastGiven(entries, m, j);
  }

  /** What the replay holds for a new resource is what the entries say. */
  lemma {:induction false} NewValuesAre(base: Deployment, refresh: bool, entries: seq<Entry>, j: nat)
    requires NoCut(entries)
    ensures var st := Run(Start(base, refresh), entries);
            j < |st.news| && st.news[j].Some? ==> NewValue(entries, j, st.news[j].value.value)
  {
    hide Step, NewValue, Marked, Meant;
    var t := Run(Start(base, refresh), entries);
    if entries != [] && j < |t.news| && t.news[j].Some? {
      var init, e, last := entries[..|entries| - 1], entries[|entries| - 1], |entries| - 1;
      var st := Run(Start(base, refresh), init);
      assert entries[..|entries|] == entries;
      SlotsAre(base, refresh, init);
      SlotsAre(base, refresh, entries);
      NewValuesAre(base, refresh, init, j);
      StepOnValue(st, e, j);
      NewValueStep(entries, j, if GivesNewAt(entries, last, j) then e.state.value else st.news[j].value.value);
    }
  }

  // ------------------------------------------------------------- the listed values

  /** A resource is listed with the value of new resource `j`, after a refresh with fewer references. */
  ghost predicate ListsNew(entries: seq<Entry>, j: nat, listed: Resource, refreshed: bool) {
    exists r: Resource :: NewValue(entries, j, r) && ListedAs(listed, r, refreshed)
  }

  ghost predicate ListsBase(entries: seq<Entry>, i: int, was: Resource, listed: Resource, refreshed: bool) {
    exists r: Resource :: BaseValue(entries, i, was, r) && ListedAs(listed, r, refreshed)
  }

  /**
   * The whole list of a replay, from the entries since the last rebuild alone: the new resources
   * that are kept, each with the last state given to it and the marks made since; then the base
   * resources that are kept, each with the last state given to it, or as it was, and the marks
   * made. After a refresh references may be missing; nothing else differs.
   */
  lemma ListedValues(base: Deployment, refresh: bool, entries: seq<Entry>)
    requires NoCut(entries)
    ensures var rs := BaseResources(ReplayFrom(base, refresh, entries));
            var was := WorkingBase(base, entries);
            var kept, rest := KeptNew(entries, BroughtCount(entries)), KeptBase(entries, |was|);
            && |rs| == |kept| + |rest|
            && (forall p :: 0 <= p < |kept| ==> ListsNew(entries, kept[p], rs[p], RefreshSeen(refresh, entries)))
            && (forall q :: 0 <= q < |rest| ==>
                  ListsBase(entries, rest[q], was[rest[q]], rs[|kept| + q], RefreshSeen(refresh, entries)))
  {
    hide Run, ReplayFrom, NewValue, BaseValue, KeptNew, KeptBase, ListedAs, BroughtCount, WorkingBase, BaseItem,
      BaseResources;
    var st, seen := Run(Start(base, refresh), entries), RefreshSeen(refresh, entries);
    var rs, was := BaseResources(ReplayFrom(base, refresh, entries)), WorkingBase(base, entries);
    var kept, rest := KeptNew(entries, BroughtCount(entries)), KeptBase(entries, |was|);
    ResultLists(base, refresh, entries);
    forall p | 0 <= p < |kept| ensures ListsNew(entries, kept[p], rs[p], seen) {
      NewValuesAre(base, refresh, entries, kept[p]);
    }
    forall q | 0 <= q < |rest| ensures ListsBase(entries, rest[q], was[rest[q]], rs[|kept| + q], seen) {
      BaseValueIs(base, refresh, entries, rest[q]);
    }
  }

  lemma BaseValueIs(base: Deployment, refresh: bool, entries: seq<Entry>, i: nat)
    requires NoCut(entries) && i < |WorkingBase(base, entries)|
    ensures var st := Run(Start(base, refresh), entries);
            && i < |BaseResources(st.deployment)|
            && BaseValue(entries, i, WorkingBase(base, entries)[i], BaseItem(st, i).value)
  {
    hide Run, SomeEntry, BaseState;
    var st, was := Run(Start(base, refresh), entries), WorkingBase(base, entries)[i];
    WorkingBaseIs(base, refresh, entries);
    ReplacedAre(base, refresh, entries, i, was);
    var given := if i in st.toReplace then st.toReplace[i].value else was;
    assert BaseItem(st, i).value == Marked(given, i in st.markPending, i in st.markDelete);
  }
}
