/**
 * Every reachable state of the concurrent service: the tables are well formed, every prepared
 * transaction would still decide the same, every referred key is backed by its bytes, no doomed
 * key is ever used again, and the tables are the result of running the commits one by one.
 */
module Runs {
  import opened Wrappers
  import opened UpdateModel
  import opened UpdatePlans
  import opened Lifecycle
  import opened Transactions
  import opened Atomicity
  import opened BlobSafety

  // --------------------------------------------------------------------- invariants

  predicate TxIds(s: State, op: Op) {
    && NewIds(op) <= s.used && NewIds(op) !! s.gone && NewIds(op) !! s.db.updates.Keys
    && (op.Create? || op.ImportDoc? ==> op.id.stack == op.stack)
  }

  /** Ids are used once: live, deleted and still uncommitted updates all differ. */
  ghost predicate IdsOk(s: State) {
    && s.db.updates.Keys <= s.used && s.gone <= s.used && s.gone !! s.db.updates.Keys
    && (forall t <- s.txs :: TxIds(s, s.txs[t].op))
    && (forall a <- s.txs, b <- s.txs :: a != b ==> NewIds(s.txs[a].op) !! NewIds(s.txs[b].op))
  }

  /** A prepared transaction holds its locks and would decide the same on the tables as they are. */
  ghost predicate StillValid(e: Env, s: State, tx: Tx) {
    tx.prepared.Some? ==>
      && tx.waiting.None?
      && tx.prepared.value.at <= s.now
      && Ready(s.db, tx.op, tx.held)
      && Ideal(e, tx.op, tx.prepared.value.at, s.db) == Success(tx.prepared.value.change)
  }

  ghost predicate PreparedOk(e: Env, s: State) {
    forall t <- s.txs :: StillValid(e, s, s.txs[t])
  }

  ghost predicate DoomedOk(s: State) {
    forall k <- s.doomed :: Dead(s.db, s.gone, k)
  }

  ghost predicate PutDone(s: State, tx: Tx) {
    tx.prepared.Some? ==> forall k <- tx.prepared.value.put ::
      k in tx.prepared.value.change.puts && k in s.blobs && s.blobs[k] == tx.prepared.value.change.puts[k]
  }

  ghost predicate PutsOk(s: State) {
    forall t <- s.txs :: PutDone(s, s.txs[t])
  }

  /** The tables after running some requests one at a time, each alone. */
  ghost function Executed(e: Env, log: seq<Committed>): Db {
    if log == [] then Db(map[], map[])
    else
      var before, last := Executed(e, log[..|log| - 1]), log[|log| - 1];
      match Ideal(e, last.op, last.at, before)
      case Success(c) => After(before, c)
      case Failure(_) => before
  }

  ghost predicate AllAccepted(e: Env, log: seq<Committed>) {
    log == [] ||
    (AllAccepted(e, log[..|log| - 1])
     && Ideal(e, log[|log| - 1].op, log[|log| - 1].at, Executed(e, log[..|log| - 1])).Success?)
  }

  ghost predicate Serial(e: Env, s: State) {
    AllAccepted(e, s.log) && s.db == Executed(e, s.log)
  }

  ghost predicate Inv(e: Env, s: State) {
    && LocksOk(s) && IdsOk(s) && DbOk(s.db) && PreparedOk(e, s)
    && Backed(e, s.db, s.blobs) && DoomedOk(s) && PutsOk(s) && Serial(e, s)
  }

  // --------------------------------------------------------------------- quiet steps

  predicate Quiet(step: Step) {
    step.Tick? || step.Begin? || step.Request? || step.Grant? || step.Abort? || step.Evict?
  }

  lemma QuietKeepsIds(e: Env, s: State, step: Step)
    requires IdsOk(s) && Enabled(e, s, step) && !step.Commit?
    ensures IdsOk(Next(e, s, step))
  {
    hide Plan, Ready, BaseIsGiven, MayRequest, After;
    var t := Next(e, s, step);
    forall a <- t.txs ensures TxIds(t, t.txs[a].op) {
      if a in s.txs && !step.Begin? { assert t.txs[a].op == s.txs[a].op; assert TxIds(s, s.txs[a].op); }
      if step.Begin? && a != step.id { assert TxIds(s, s.txs[a].op); }
    }
    if step.Begin? {
      forall a <- s.txs ensures NewIds(s.txs[a].op) !! NewIds(step.op) { assert TxIds(s, s.txs[a].op); }
    }
  }

  lemma QuietKeepsPrepared(e: Env, s: State, step: Step)
    requires LocksOk(s) && PreparedOk(e, s) && PutsOk(s) && Enabled(e, s, step) && Quiet(step)
    ensures PreparedOk(e, Next(e, s, step)) && PutsOk(Next(e, s, step))
  {
    hide Plan, Ready, BaseIsGiven, MayRequest, Ideal, Exclusive;
    var t := Next(e, s, step);
    forall a <- t.txs ensures StillValid(e, t, t.txs[a]) && PutDone(t, t.txs[a]) {
      if a in s.txs { assert StillValid(e, s, s.txs[a]) && PutDone(s, s.txs[a]) && Orderly(s.txs[a]); }
    }
  }

  lemma QuietKeeps(e: Env, s: State, step: Step)
    requires Inv(e, s) && Enabled(e, s, step) && Quiet(step)
    ensures Inv(e, Next(e, s, step))
  {
    hide Plan, Ready, BaseIsGiven, MayRequest, IdsOk, PreparedOk, PutsOk, LocksOk, DbOk, Backed, AllAccepted, Executed;
    StepKeepsLocks(e, s, step);
    QuietKeepsIds(e, s, step);
    QuietKeepsPrepared(e, s, step);
    assert Next(e, s, step).db == s.db;
  }

  // --------------------------------------------------------------------- preparing

  lemma PrepareKeeps(e: Env, s: State, step: Step)
    requires EncodingFacts(e) && Inv(e, s) && Enabled(e, s, step) && step.Prepare?
    ensures Inv(e, Next(e, s, step))
    ensures Plan(e, s.txs[step.id].op, s.now, s.db, s.blobs) == Ideal(e, s.txs[step.id].op, s.now, s.db)
  {
    hide Plan, Ideal, Ready, BaseIsGiven, IdsOk, LocksOk, Backed, AllAccepted, Executed, EncodingFacts, RowOk,
        AllVersionsOk, ActiveOk;
    StepKeepsLocks(e, s, step);
    QuietKeepsIds(e, s, step);
    PlanIsIdeal(e, s.txs[step.id].op, s.now, s.db, s.blobs);
    var t := Next(e, s, step);
    forall a <- t.txs ensures StillValid(e, t, t.txs[a]) && PutDone(t, t.txs[a]) {
      assert StillValid(e, s, s.txs[a]) && PutDone(s, s.txs[a]);
    }
  }

  // --------------------------------------------------------------------- storing and deleting blobs

  /** What a prepared transaction's plan says about its keys. */
  lemma PreparedKeys(e: Env, s: State, t: TxId)
    requires EncodingFacts(e) && DbOk(s.db) && IdsOk(s) && PreparedOk(e, s) && t in s.txs && s.txs[t].prepared.Some?
    ensures var c := s.txs[t].prepared.value.change;
            ChangeKeys(e, s.db, c) && Footprint(s.db, s.txs[t].op, s.txs[t].held, c)
  {
    hide Ready, ChangeKeys, Footprint, DbOk, EncodingFacts, PlanWith;
    var tx := s.txs[t];
    assert StillValid(e, s, tx) && TxIds(s, tx.op);
    RequestKeys(e, tx.op, tx.prepared.value.at, s.db);
    ChangesStayInFootprint(e, tx.op, tx.prepared.value.at, s.db, GivenBaseline(RowsOf(tx.op, s.db)), tx.held);
  }

  /** The update a put key belongs to is locked by the putting transaction, or is its new one. */
  lemma PutOwner(e: Env, s: State, t: TxId, k: Key)
    requires EncodingFacts(e) && DbOk(s.db) && IdsOk(s) && PreparedOk(e, s) && t in s.txs && s.txs[t].prepared.Some?
    requires k in s.txs[t].prepared.value.change.puts
    ensures k.update in NewIds(s.txs[t].op) || (UpdateLock(k.update) in s.txs[t].held && k.update in s.db.updates)
    ensures k.update !in s.gone
  {
    hide DbOk, PreparedOk, EncodingFacts, PutAllowed, NewRowAllowed;
    PreparedKeys(e, s, t);
    assert TxIds(s, s.txs[t].op);
  }

  /** Two transactions never put the same key. */
  lemma PutsAreApart(e: Env, s: State, t: TxId, o: TxId, k: Key)
    requires EncodingFacts(e) && LocksOk(s) && DbOk(s.db) && IdsOk(s) && PreparedOk(e, s)
    requires t in s.txs && s.txs[t].prepared.Some? && o in s.txs && s.txs[o].prepared.Some? && t != o
    requires k in s.txs[t].prepared.value.change.puts
    ensures k !in s.txs[o].prepared.value.change.puts
  {
    hide DbOk, PreparedOk, EncodingFacts;
    if k in s.txs[o].prepared.value.change.puts {
      PutOwner(e, s, t, k);
      PutOwner(e, s, o, k);
      assert false;
    }
  }

  lemma PutKeepsBacked(e: Env, s: State, step: Step)
    requires EncodingFacts(e) && Inv(e, s) && Enabled(e, s, step) && step.PutBlob?
    ensures Backed(e, Next(e, s, step).db, Next(e, s, step).blobs)
  {
    hide DbOk, IdsOk, LocksOk, PreparedOk, EncodingFacts, ChangeKeys, Footprint, BytesOf, Serial, DoomedOk, PutsOk,
        Plan, Ready;
    PreparedKeys(e, s, step.id);
    DbParts(s.db);
    var t := Next(e, s, step);
    forall u <- t.db.updates, v <- t.db.updates[u].rows ensures RowBacked(e, t.db.updates[u].rows[v], t.blobs) {
      PutIsUnused(e, s.db, s.txs[step.id].prepared.value.change, step.key, u, v);
      assert RowBacked(e, s.db.updates[u].rows[v], s.blobs);
    }
  }

  lemma DbParts(db: Db)
    requires DbOk(db)
    ensures AllRowsOk(db)
  {
  }

  lemma PutKeepsPrepared(e: Env, s: State, step: Step)
    requires EncodingFacts(e) && Inv(e, s) && Enabled(e, s, step) && step.PutBlob?
    ensures PreparedOk(e, Next(e, s, step)) && PutsOk(Next(e, s, step))
  {
    hide DbOk, IdsOk, LocksOk, EncodingFacts, Backed, Serial, DoomedOk, Plan, Ready, Ideal;
    var t := Next(e, s, step);
    forall a <- t.txs ensures StillValid(e, t, t.txs[a]) && PutDone(t, t.txs[a]) {
      assert StillValid(e, s, s.txs[a]) && PutDone(s, s.txs[a]);
      if a != step.id && s.txs[a].prepared.Some? { PutsAreApart(e, s, step.id, a, step.key); }
    }
  }

  lemma PutKeeps(e: Env, s: State, step: Step)
    requires EncodingFacts(e) && Inv(e, s) && Enabled(e, s, step) && step.PutBlob?
    ensures Inv(e, Next(e, s, step))
  {
    hide EncodingFacts, Plan, Ready, BaseIsGiven, IdsOk, PreparedOk, PutsOk, LocksOk, DbOk, Backed, AllAccepted,
        Executed;
    StepKeepsLocks(e, s, step);
    QuietKeepsIds(e, s, step);
    PutKeepsPrepared(e, s, step);
    PutKeepsBacked(e, s, step);
  }

  lemma DeleteKeepsBacked(e: Env, s: State, step: Step)
    requires Inv(e, s) && Enabled(e, s, step) && step.LateDelete?
    ensures Backed(e, Next(e, s, step).db, Next(e, s, step).blobs)
  {
    hide DbOk, LocksOk, PreparedOk, BytesOf, Serial, PutsOk, Dead, Plan;
    DbParts(s.db);
    var t := Next(e, s, step);
    forall u <- t.db.updates, v <- t.db.updates[u].rows ensures RowBacked(e, t.db.updates[u].rows[v], t.blobs) {
      assert RowBacked(e, s.db.updates[u].rows[v], s.blobs);
      if s.db.updates[u].rows[v].key.Some? { ReferredIsAlive(s.db, s.gone, u, v); }
    }
  }

  lemma DeleteKeepsPuts(e: Env, s: State, step: Step)
    requires EncodingFacts(e) && Inv(e, s) && Enabled(e, s, step) && step.LateDelete?
    ensures PutsOk(Next(e, s, step))
  {
    hide DbOk, IdsOk, LocksOk, PreparedOk, Backed, Serial, Dead, Plan, EncodingFacts, ChangeKeys, Footprint;
    DbParts(s.db);
    var t := Next(e, s, step);
    forall a <- t.txs ensures PutDone(t, t.txs[a]) {
      assert PutDone(s, s.txs[a]);
      if s.txs[a].prepared.Some? && step.key in s.txs[a].prepared.value.change.puts {
        PreparedKeys(e, s, a);
        PutOwner(e, s, a, step.key);
        PutIsAlive(e, s.db, s.gone, s.txs[a].prepared.value.change, step.key);
      }
    }
  }

  lemma LateDeleteKeeps(e: Env, s: State, step: Step)
    requires EncodingFacts(e) && Inv(e, s) && Enabled(e, s, step) && step.LateDelete?
    ensures Inv(e, Next(e, s, step))
  {
    hide EncodingFacts, Plan, Ready, Ideal, BaseIsGiven, IdsOk, PutsOk, LocksOk, DbOk, Backed, AllAccepted, Executed;
    StepKeepsLocks(e, s, step);
    QuietKeepsIds(e, s, step);
    DeleteKeepsBacked(e, s, step);
    DeleteKeepsPuts(e, s, step);
    var t := Next(e, s, step);
    forall a <- t.txs ensures StillValid(e, t, t.txs[a]) { assert StillValid(e, s, s.txs[a]); }
  }

  // --------------------------------------------------------------------- committing

  lemma CommitFacts(e: Env, s: State, step: Step)
    requires EncodingFacts(e) && Inv(e, s) && Enabled(e, s, step) && step.Commit?
    ensures var c := s.txs[step.id].prepared.value.change;
            && ChangeKeys(e, s.db, c) && Footprint(s.db, s.txs[step.id].op, s.txs[step.id].held, c)
            && DbOk(After(s.db, c))
  {
    hide DbOk, LocksOk, EncodingFacts, ChangeKeys, Footprint, Backed, Serial, PutsOk, DoomedOk, Ready, PlanWith, After;
    var tx := s.txs[step.id];
    PreparedKeys(e, s, step.id);
    assert StillValid(e, s, tx) && TxIds(s, tx.op);
    RequestsKeep(e, tx.op, tx.prepared.value.at, s.db, GivenBaseline(RowsOf(tx.op, s.db)));
  }

  /** A commit adds at most its own new update, and what disappears is remembered as gone. */
  lemma UpdatesAfter(db: Db, op: Op, held: set<Lock>, c: Change)
    requires Footprint(db, op, held, c)
    ensures After(db, c).updates.Keys <= db.updates.Keys + NewIds(op)
    ensures After(db, c).updates.Keys !! Dropped(db, c)
    ensures Dropped(db, c) <= db.updates.Keys
  {
    hide NewIds;
  }

  lemma CommitKeepsIds(e: Env, s: State, step: Step)
    requires EncodingFacts(e) && Inv(e, s) && Enabled(e, s, step) && step.Commit?
    ensures IdsOk(Next(e, s, step))
  {
    hide DbOk, LocksOk, EncodingFacts, ChangeKeys, Backed, Serial, PutsOk, DoomedOk, Ready, PlanWith, PreparedOk, Plan,
      Footprint, After, Dropped, NewIds, BaseIsGiven, MayRequest;
    CommitFacts(e, s, step);
    var t := Next(e, s, step);
    var tx := s.txs[step.id];
    UpdatesAfter(s.db, tx.op, tx.held, tx.prepared.value.change);
    assert TxIds(s, tx.op);
    forall a <- t.txs ensures TxIds(t, t.txs[a].op) {
      assert TxIds(s, s.txs[a].op);
      assert NewIds(s.txs[a].op) !! NewIds(tx.op);
    }
  }

  lemma CommitKeepsPrepared(e: Env, s: State, step: Step)
    requires EncodingFacts(e) && Inv(e, s) && Enabled(e, s, step) && step.Commit?
    ensures PreparedOk(e, Next(e, s, step)) && PutsOk(Next(e, s, step))
  {
    hide DbOk, EncodingFacts, ChangeKeys, Backed, Serial, DoomedOk, Ready, PlanWith, Plan, Footprint, After, Orderly;
    CommitFacts(e, s, step);
    var t := Next(e, s, step);
    var tx := s.txs[step.id];
    assert StillValid(e, s, tx) && TxIds(s, tx.op);
    forall a <- t.txs ensures StillValid(e, t, t.txs[a]) && PutDone(t, t.txs[a]) {
      var other := s.txs[a];
      assert StillValid(e, s, other) && PutDone(s, other);
      if other.prepared.Some? {
        assert Apart(s.db, other.held, tx, tx.prepared.value.change);
        PlanStays(e, s.db, other.held, tx, tx.prepared.value.change, other.op, other.prepared.value.at);
      }
    }
  }

  lemma CommitKeepsDoomed(e: Env, s: State, step: Step)
    requires EncodingFacts(e) && Inv(e, s) && Enabled(e, s, step) && step.Commit?
    ensures DoomedOk(Next(e, s, step))
  {
    hide DbOk, EncodingFacts, ChangeKeys, Backed, Serial, LocksOk, IdsOk, PreparedOk, PutsOk, Plan, Footprint,
        After, Dead, Dropped;
    CommitFacts(e, s, step);
    DbParts(s.db);
    var t := Next(e, s, step);
    var c := s.txs[step.id].prepared.value.change;
    forall k <- t.doomed ensures Dead(t.db, t.gone, k) {
      if k in c.dooms { DoomedDies(e, s.db, s.gone, c, k); } else { DeadStays(e, s.db, s.gone, c, k); }
    }
  }

  lemma CommitBacks(e: Env, s: State, step: Step)
    requires EncodingFacts(e) && Inv(e, s) && Enabled(e, s, step) && step.Commit?
    ensures Backed(e, Next(e, s, step).db, Next(e, s, step).blobs)
  {
    hide DbOk, EncodingFacts, ChangeKeys, Backed, LocksOk, IdsOk, Plan, Footprint, After, Ready, DoomedOk, PreparedOk,
      Serial;
    CommitFacts(e, s, step);
    var tx := s.txs[step.id];
    assert PutDone(s, tx);
    CommitKeepsBacked(e, s.db, s.blobs, tx.prepared.value.change);
  }

  lemma CommitIsSerial(e: Env, s: State, step: Step)
    requires EncodingFacts(e) && Inv(e, s) && Enabled(e, s, step) && step.Commit?
    ensures Serial(e, Next(e, s, step))
  {
    hide DbOk, EncodingFacts, Backed, LocksOk, IdsOk, Plan, Ideal, After, Ready, DoomedOk, PutsOk;
    var t := Next(e, s, step);
    assert StillValid(e, s, s.txs[step.id]);
    assert t.log[..|t.log| - 1] == s.log;
  }

  lemma CommitKeeps(e: Env, s: State, step: Step)
    requires EncodingFacts(e) && Inv(e, s) && Enabled(e, s, step) && step.Commit?
    ensures Inv(e, Next(e, s, step))
  {
    hide DbOk, EncodingFacts, ChangeKeys, Backed, LocksOk, IdsOk, Plan, PlanWith, Footprint, After, Ready, DoomedOk,
      PreparedOk, PutsOk, Serial;
    CommitFacts(e, s, step);
    StepKeepsLocks(e, s, step);
    CommitKeepsIds(e, s, step);
    CommitKeepsPrepared(e, s, step);
    CommitKeepsDoomed(e, s, step);
    CommitBacks(e, s, step);
    CommitIsSerial(e, s, step);
  }

  // --------------------------------------------------------------------- all runs

  /** Every step, of any transaction in any order, keeps the invariant. */
  lemma StepKeeps(e: Env, s: State, step: Step)
    requires EncodingFacts(e) && Inv(e, s) && Enabled(e, s, step)
    ensures Inv(e, Next(e, s, step))
  {
    hide Inv, EncodingFacts, Enabled;
    match step {
      case Prepare(_) => PrepareKeeps(e, s, step);
      case PutBlob(_, _) => PutKeeps(e, s, step);
      case LateDelete(_) => LateDeleteKeeps(e, s, step);
      case Commit(_) => CommitKeeps(e, s, step);
      case _ => QuietKeeps(e, s, step);
    }
  }

  lemma InitialIsOk(e: Env, s: State)
    requires Initial(s)
    ensures Inv(e, s)
  {
    forall x: StackId ensures VersionsOk(s.db, x) {
      assert Versions(s.db, x, false) == {};
    }
  }

  /** Every state of every run satisfies the invariant. */
  lemma {:induction false} RunsAreSafe(e: Env, states: seq<State>, steps: seq<Step>, i: nat)
    requires EncodingFacts(e) && IsRun(e, states, steps) && i < |states|
    ensures Inv(e, states[i])
  {
    hide Inv, EncodingFacts;
    if i == 0 {
      InitialIsOk(e, states[0]);
    } else {
      RunsAreSafe(e, states, steps, i - 1);
      assert states[i - 1 + 1] == Next(e, states[i - 1], steps[i - 1]);
      StepKeeps(e, states[i - 1], steps[i - 1]);
    }
  }
}
