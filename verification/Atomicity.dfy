/**
 * Concurrent transactions commit as if each ran alone: what a transaction computed under its
 * locks is still what it would compute when it commits.
 */
module Atomicity {
  import opened Wrappers
  import opened UpdateModel
  import opened UpdatePlans
  import opened Lifecycle
  import opened Transactions

  // --------------------------------------------------------------------- what a change touches

  /** A change writes only locked or new rows, and sets `active` only on locked stacks. */
  ghost predicate Footprint(db: Db, op: Op, held: set<Lock>, c: Change) {
    && (forall u <- c.rows :: u in NewIds(op) || (UpdateLock(u) in held && u in db.updates))
    && (forall s <- c.active :: StackLock(s) in held)
    && (c.dropped.Some? ==>
          && StackLock(c.dropped.value) in held
          && forall u <- db.updates :: u.stack == c.dropped.value ==> UpdateLock(u) in held)
    && (OnRow(op) ==> forall u <- c.rows :: u in db.updates && db.updates[u].status == Running)
  }

  lemma ChangesStayInFootprint(e: Env, op: Op, at: Time, db: Db, base: Baseline, held: set<Lock>)
    requires EncodingFacts(e) && DbOk(db) && Ready(db, op, held) && PlanWith(e, op, at, db, base).Success?
    requires op.Create? || op.ImportDoc? ==> op.id.stack == op.stack
    ensures Footprint(db, op, held, PlanWith(e, op, at, db, base).value)
  {
    hide RowOk, AllVersionsOk, EncodingFacts;
    if OnRow(op) {
      OwnRowOnly(e, op, at, db, base);
    } else if OnRowAndStack(op) {
      LifecycleFootprint(e, op, at, db, base, held);
    } else if op.Sweep? {
      SweepFootprint(e, op, db, held);
    }
  }

  lemma LifecycleFootprint(e: Env, op: Op, at: Time, db: Db, base: Baseline, held: set<Lock>)
    requires OnRowAndStack(op) && Ready(db, op, held) && PlanWith(e, op, at, db, base).Success?
    ensures Footprint(db, op, held, PlanWith(e, op, at, db, base).value)
  {
    hide PlanRow, RowOk;
    LifecycleOpEffect(e, op, db.updates[op.update], at, base);
  }

  lemma SweepFootprint(e: Env, op: Op, db: Db, held: set<Lock>)
    requires op.Sweep? && DbOk(db) && Ready(db, op, held)
    ensures Footprint(db, op, held, SweepChange(e, db, op.stacks, op.chosen, op.readAt))
  {
    hide DbOk, Expired, Stale, Swept;
  }

  // --------------------------------------------------------------------- two transactions

  /** A transaction, and another with disjoint locks and ids that commits the change `c`. */
  ghost predicate Apart(db: Db, held: set<Lock>, other: Tx, c: Change) {
    && held !! other.held && Orderly(other)
    && Footprint(db, other.op, other.held, c)
    && Ready(db, other.op, other.held)
    && NewIds(other.op) !! db.updates.Keys
    && (other.op.Create? || other.op.ImportDoc? ==> other.op.id.stack == other.op.stack)
  }

  lemma LockedRowStays(db: Db, held: set<Lock>, other: Tx, c: Change, u: UpdateId)
    requires Apart(db, held, other, c) && UpdateLock(u) in held && u in db.updates
    ensures u in After(db, c).updates && After(db, c).updates[u] == db.updates[u]
  {
    hide Ready, Orderly;
    assert UpdateLock(u) !in other.held;
  }

  /** No row appears on a locked stack. */
  lemma LockedStackGrowsNot(db: Db, held: set<Lock>, other: Tx, c: Change, u: UpdateId)
    requires Apart(db, held, other, c) && StackLock(u.stack) in held && UpdateLock(u) !in other.held
    ensures u in After(db, c).updates ==> u in db.updates
  {
    assert StackLock(u.stack) !in other.held;
  }

  lemma LockedActiveStays(db: Db, held: set<Lock>, other: Tx, c: Change, s: StackId)
    requires Apart(db, held, other, c) && StackLock(s) in held
    ensures s in After(db, c).active <==> s in db.active
    ensures s in db.active ==> After(db, c).active[s] == db.active[s]
  {
    hide Ready, Orderly;
    assert StackLock(s) !in other.held;
  }

  /** The stack has no live update, or the transaction holds all its rows. */
  ghost predicate Settled(db: Db, held: set<Lock>, s: StackId) {
    && StackLock(s) in held
    && ((s in db.active && db.active[s].None?) || forall u <- db.updates :: u.stack == s ==> UpdateLock(u) in held)
  }

  /** Two tables agree on the rows of one stack. */
  ghost predicate SameStack(db: Db, db': Db, s: StackId) {
    && (s in db.active <==> s in db'.active)
    && (s in db.active ==> db.active[s] == db'.active[s])
    && (forall u: UpdateId :: u.stack == s ==> (u in db.updates <==> u in db'.updates))
    && (forall u <- db.updates :: u.stack == s && u in db'.updates ==> db.updates[u] == db'.updates[u])
  }

  lemma SettledStackStays(db: Db, held: set<Lock>, other: Tx, c: Change, s: StackId)
    requires DbOk(db) && Apart(db, held, other, c) && Settled(db, held, s)
    ensures SameStack(db, After(db, c), s)
  {
    hide AllRowsOk, AllVersionsOk;
    LockedActiveStays(db, held, other, c, s);
    assert StackLock(s) !in other.held;
    forall u: UpdateId | u.stack == s
      ensures u in db.updates <==> u in After(db, c).updates
      ensures u in db.updates ==> After(db, c).updates[u] == db.updates[u]
    {
      SettledRowStays(db, held, other, c, u);
    }
  }

  lemma SettledRowStays(db: Db, held: set<Lock>, other: Tx, c: Change, u: UpdateId)
    requires DbOk(db) && Apart(db, held, other, c) && Settled(db, held, u.stack)
    ensures u in db.updates <==> u in After(db, c).updates
    ensures u in db.updates ==> After(db, c).updates[u] == db.updates[u]
  {
    hide AllRowsOk, AllVersionsOk;
    assert StackLock(u.stack) !in other.held;
  }

  // --------------------------------------------------------------------- the plan stays

  lemma SameStackSameVersions(db: Db, db': Db, s: StackId, onlySucceeded: bool)
    requires SameStack(db, db', s)
    ensures Versions(db', s, onlySucceeded) == Versions(db, s, onlySucceeded)
  {
    forall v ensures v in Versions(db', s, onlySucceeded) <==> v in Versions(db, s, onlySucceeded) {}
  }

  lemma SameStackSameLatest(db: Db, db': Db, s: StackId, except: Option<UpdateId>, r: RowId)
    requires SameStack(db, db', s)
    ensures Candidate(db', s, except, r) <==> Candidate(db, s, except, r)
    ensures Candidate(db, s, except, r) ==> RowAt(db', r) == RowAt(db, r)
    ensures Latest(db', s, except, r) <==> Latest(db, s, except, r)
  {
    forall o: RowId
      ensures Candidate(db', s, except, o) <==> Candidate(db, s, except, o)
      ensures Candidate(db, s, except, o) ==> RowAt(db', o) == RowAt(db, o)
    {
    }
  }

  lemma SameStackSamePopulated(db: Db, db': Db, s: StackId)
    requires SameStack(db, db', s)
    ensures Populated(db', s) <==> Populated(db, s)
  {
    hide Latest, SameStack, HasResourcesIn;
    forall r: RowId
      ensures Candidate(db', s, None, r) <==> Candidate(db, s, None, r)
      ensures Latest(db', s, None, r) <==> Latest(db, s, None, r)
      ensures Candidate(db, s, None, r) ==> RowAt(db', r) == RowAt(db, r)
    {
      SameStackSameLatest(db, db', s, None, r);
    }
    forall r: RowId | Latest(db, s, None, r) || Latest(db', s, None, r)
      ensures Candidate(db, s, None, r)
    {
      LatestIsCandidate(db, s, r);
      LatestIsCandidate(db', s, r);
    }
  }

  lemma LatestIsCandidate(db: Db, s: StackId, r: RowId)
    ensures Latest(db, s, None, r) ==> Candidate(db, s, None, r)
  {
  }

  /** Keys are named by their update, so no other stack refers to a stack's keys. */
  lemma KeysAreOwn(db: Db, s: StackId, k: Key)
    requires AllRowsOk(db) && k in StackKeys(db, s)
    ensures k.update.stack == s && k.update in db.updates && !ReferredElsewhere(db, s, k)
  {
    var u :| u in db.updates && u.stack == s && k in Keys(db.updates[u].rows);
    assert RowOk(u, db.updates[u]);
    assert k.update == u;
    forall w <- db.updates, v <- db.updates[w].rows | db.updates[w].rows[v].key == Some(k) ensures w == u {
      assert RowOk(w, db.updates[w]);
    }
  }

  lemma SameStackSameKeys(db: Db, db': Db, s: StackId)
    requires SameStack(db, db', s)
    ensures StackKeys(db', s) == StackKeys(db, s)
  {
    hide Keys;
    forall k ensures k in StackKeys(db', s) <==> k in StackKeys(db, s) {}
  }

  lemma AllKeysAreOrphans(db: Db, s: StackId)
    requires AllRowsOk(db)
    ensures OrphanKeys(db, s) == StackKeys(db, s)
  {
    hide StackKeys, ReferredElsewhere, AllRowsOk;
    forall k | k in StackKeys(db, s) ensures !ReferredElsewhere(db, s, k) { KeysAreOwn(db, s, k); }
  }

  lemma DeletePlanStays(db: Db, db': Db, op: Op)
    requires op.Delete? && AllRowsOk(db) && AllRowsOk(db') && SameStack(db, db', op.stack)
    ensures PlanDelete(db', op.stack, op.force) == PlanDelete(db, op.stack, op.force)
  {
    hide SameStack, AllRowsOk, OrphanKeys, StackKeys, Populated;
    var s := op.stack;
    SameStackSamePopulated(db, db', s);
    SameStackSameKeys(db, db', s);
    AllKeysAreOrphans(db, s);
    AllKeysAreOrphans(db', s);
    SameStackSameActive(db, db', s);
  }

  lemma SameStackSameActive(db: Db, db': Db, s: StackId)
    requires SameStack(db, db', s)
    ensures s in db.active <==> s in db'.active
    ensures s in db.active ==> db.active[s] == db'.active[s]
  {
  }

  lemma CreatePlanStays(db: Db, db': Db, op: Op, at: Time)
    requires op.Create? && SameStack(db, db', op.stack)
    ensures PlanCreate(db', op.stack, op.kind, op.id, at) == PlanCreate(db, op.stack, op.kind, op.id, at)
  {
    hide SameStack, Versions;
    SameStackSameVersions(db, db', op.stack, op.kind == Preview);
    SameStackSameActive(db, db', op.stack);
  }

  lemma ImportPlanStays(e: Env, db: Db, db': Db, op: Op, at: Time)
    requires op.ImportDoc? && SameStack(db, db', op.stack)
    ensures PlanImport(e, db', op.stack, op.doc, op.head, op.id, at)
         == PlanImport(e, db, op.stack, op.doc, op.head, op.id, at)
  {
    hide SameStack, Versions, SaveDoc, Latest;
    SameStackSameVersions(db, db', op.stack, false);
    SameStackSameActive(db, db', op.stack);
    if op.head.Some? { SameStackSameLatest(db, db', op.stack, None, op.head.value); }
  }

  lemma SweepPlanStays(e: Env, db: Db, held: set<Lock>, other: Tx, c: Change, op: Op)
    requires op.Sweep? && Ready(db, op, held) && Apart(db, held, other, c)
    ensures SweepChange(e, After(db, c), op.stacks, op.chosen, op.readAt)
         == SweepChange(e, db, op.stacks, op.chosen, op.readAt)
  {
    hide Expired, Stale, Swept, Apart, After;
    var db' := After(db, c);
    forall u | u in op.chosen
      ensures u in db'.updates <==> u in db.updates
      ensures u in db.updates ==> db'.updates[u] == db.updates[u]
      ensures u.stack in db'.active <==> u.stack in db.active
      ensures u.stack in db.active ==> db'.active[u.stack] == db.active[u.stack]
    {
      HeldIsNotOther(db, held, other, c, UpdateLock(u));
      LockedStackGrowsNot(db, held, other, c, u);
      if u in db.updates { LockedRowStays(db, held, other, c, u); }
      LockedActiveStays(db, held, other, c, u.stack);
    }
    assert Orphans(e, db', op.stacks, op.chosen, op.readAt) == Orphans(e, db, op.stacks, op.chosen, op.readAt);
  }

  lemma HeldIsNotOther(db: Db, held: set<Lock>, other: Tx, c: Change, l: Lock)
    requires Apart(db, held, other, c) && l in held
    ensures l !in other.held
  {
  }

  /** A request on one row reads that row only; the one answered without a row does not care. */
  lemma RowPlanStays(e: Env, db: Db, held: set<Lock>, other: Tx, c: Change, op: Op, at: Time)
    requires (OnRow(op) || OnRowAndStack(op)) && UpdateLock(op.update) in held && Apart(db, held, other, c)
    requires Ideal(e, op, at, db).Success?
    ensures Ideal(e, op, at, After(db, c)) == Ideal(e, op, at, db)
  {
    hide Apart, After;
    if op.update in db.updates { LockedRowStays(db, held, other, c, op.update); }
  }

  /** Others' commits do not change what a transaction would decide, nor that its locks suffice. */
  lemma PlanStays(e: Env, db: Db, held: set<Lock>, other: Tx, c: Change, op: Op, at: Time)
    requires DbOk(db) && DbOk(After(db, c)) && Apart(db, held, other, c)
    requires Ready(db, op, held) && Ideal(e, op, at, db).Success?
    ensures Ready(After(db, c), op, held) && Ideal(e, op, at, After(db, c)) == Ideal(e, op, at, db)
  {
    hide DbOk, Apart, After, SameStack, PlanCreate, PlanImport, PlanDelete, SweepChange, PlanRow, PlanMissing, Settled;
    var db' := After(db, c);
    if op.AddStack? {
      LockedActiveStays(db, held, other, c, op.stack);
    } else if op.Sweep? {
      SweepPlanStays(e, db, held, other, c, op);
    } else if OnRow(op) || OnRowAndStack(op) {
      RowPlanStays(e, db, held, other, c, op, at);
    } else {
      PreparedStackIsSettled(e, db, op, at, held);
      SettledStackStays(db, held, other, c, op.stack);
      StackPlanStays(e, db, db', op, at, held);
    }
  }

  lemma PreparedStackIsSettled(e: Env, db: Db, op: Op, at: Time, held: set<Lock>)
    requires (op.Create? || op.ImportDoc? || op.Delete?) && Ready(db, op, held) && Ideal(e, op, at, db).Success?
    ensures Settled(db, held, op.stack)
  {
  }

  lemma StackPlanStays(e: Env, db: Db, db': Db, op: Op, at: Time, held: set<Lock>)
    requires (op.Create? || op.ImportDoc? || op.Delete?) && DbOk(db) && DbOk(db')
    requires SameStack(db, db', op.stack) && Ready(db, op, held)
    ensures Ready(db', op, held) && Ideal(e, op, at, db') == Ideal(e, op, at, db)
  {
    hide PlanCreate, PlanImport, PlanDelete, StackKeys, RowOk, ActiveOk, AllVersionsOk;
    match op {
      case Create(_, _, _) => CreatePlanStays(db, db', op, at);
      case ImportDoc(_, _, _, _) => ImportPlanStays(e, db, db', op, at);
      case Delete(_, _) =>
        DeletePlanStays(db, db', op);
        SameStackSameKeys(db, db', op.stack);
    }
  }
}
