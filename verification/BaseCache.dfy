/**
 * The per-replica cache of base documents: a flush that finds its update in the cache starts from
 * what it would load now.
 */
module BaseCache {
  import opened Wrappers
  import opened UpdateModel
  import opened UpdatePlans
  import opened Lifecycle
  import opened Transactions
  import opened Atomicity
  import opened BlobSafety
  import opened Runs
  import opened RunTheorems

  /** What a flush of `u` may start from, in terms of what the rows were given. */
  ghost predicate LoadsGiven(db: Db, u: UpdateId, d: Doc) {
    if exists r: RowId :: Candidate(db, u.stack, Some(u), r)
    then exists r: RowId :: Latest(db, u.stack, Some(u), r) && RowAt(db, r).doc == d
    else IsEmptyDeployment(d)
  }

  lemma LoadsWhatWasGiven(e: Env, db: Db, blobs: map<Key, Bytes>, u: UpdateId, d: Doc)
    requires EncodingFacts(e) && Backed(e, db, blobs)
    ensures Loads(e, db, blobs, u, d) <==> LoadsGiven(db, u, d)
  {
    hide EncodingFacts, ReadDoc, RowBacked;
    forall r: RowId | Candidate(db, u.stack, Some(u), r)
      ensures ReadDoc(e, RowAt(db, r), blobs) == Some(RowAt(db, r).doc)
    {
      assert RowBacked(e, db.updates[r.update].rows[r.version], blobs);
      RowReadsBack(e, RowAt(db, r), blobs);
    }
  }

  predicate Live(db: Db, u: UpdateId) {
    u in db.updates && !Terminal(db.updates[u].status)
  }

  /** The cached updates are known, and for one still live the cached document is what would be loaded. */
  ghost predicate CacheOk(s: State) {
    forall slot <- s.cache ::
      && (slot.update in s.db.updates || slot.update in s.gone)
      && (Live(s.db, slot.update) ==> LoadsGiven(s.db, slot.update, s.cache[slot]))
  }

  /** The full checkpoints of the other updates of the stack are the same. */
  ghost predicate SameOthers(db: Db, db': Db, u: UpdateId) {
    forall r: RowId {:trigger IsFull(db', r)} {:trigger IsFull(db, r)} :: r.update != u && r.update.stack == u.stack ==>
      (IsFull(db, r) <==> IsFull(db', r)) && (IsFull(db, r) ==> RowAt(db', r) == RowAt(db, r))
  }

  lemma SameCandidate(db: Db, db': Db, u: UpdateId, r: RowId)
    requires SameOthers(db, db', u)
    ensures Candidate(db', u.stack, Some(u), r) <==> Candidate(db, u.stack, Some(u), r)
    ensures Candidate(db, u.stack, Some(u), r) ==> RowAt(db', r) == RowAt(db, r)
  {
    hide RowAt;
    if r.update != u && r.update.stack == u.stack { assert IsFull(db, r) <==> IsFull(db', r); }
  }

  lemma SameLatest(db: Db, db': Db, u: UpdateId, r: RowId)
    requires SameOthers(db, db', u) && Latest(db, u.stack, Some(u), r)
    ensures Latest(db', u.stack, Some(u), r) && RowAt(db', r).doc == RowAt(db, r).doc
  {
    hide SameOthers;
    SameCandidate(db, db', u, r);
    forall o: RowId | Candidate(db', u.stack, Some(u), o)
      ensures RowAt(db', o).createdAt <= RowAt(db', r).createdAt
    {
      SameCandidate(db, db', u, o);
    }
  }

  lemma SameOthersSameLoads(db: Db, db': Db, u: UpdateId, d: Doc)
    requires SameOthers(db, db', u) && LoadsGiven(db, u, d)
    ensures LoadsGiven(db', u, d)
  {
    hide SameOthers;
    forall r: RowId ensures Candidate(db', u.stack, Some(u), r) <==> Candidate(db, u.stack, Some(u), r) {
      SameCandidate(db, db', u, r);
    }
    if exists r: RowId :: Candidate(db, u.stack, Some(u), r) {
      var r: RowId :| Latest(db, u.stack, Some(u), r) && RowAt(db, r).doc == d;
      SameLatest(db, db', u, r);
    }
  }

  /** While an update is live no accepted request changes the checkpoints of its stack's other updates. */
  lemma OthersAreSettled(e: Env, op: Op, at: Time, db: Db, u: UpdateId)
    requires EncodingFacts(e) && DbOk(db) && FreshId(db, op) && Ideal(e, op, at, db).Success?
    requires Live(db, u) && Live(After(db, Ideal(e, op, at, db).value), u)
    ensures SameOthers(db, After(db, Ideal(e, op, at, db).value), u)
  {
    hide PlanWith, RowOk, AllVersionsOk, EncodingFacts, After;
    var db' := After(db, Ideal(e, op, at, db).value);
    forall r: RowId | r.update != u && r.update.stack == u.stack
      ensures IsFull(db, r) <==> IsFull(db', r)
      ensures IsFull(db, r) ==> RowAt(db', r) == RowAt(db, r)
    {
      if r.update in db.updates {
        EndedStaysEnded(e, op, at, db, GivenBaseline(RowsOf(op, db)), r.update);
        KeptWithStack(e, op, at, db, u, r.update);
        NumberedBase(db, r.update);
      } else {
        NotCreatedBeside(e, op, at, db, u, r.update);
      }
    }
  }

  lemma NumberedBase(db: Db, u: UpdateId)
    requires DbOk(db) && u in db.updates
    ensures DELTA_BASE_VERSION in db.updates[u].rows ==> db.updates[u].rows[DELTA_BASE_VERSION].Base?
  {
    assert RowOk(u, db.updates[u]);
  }

  /** Updates of one stack are deleted together. */
  lemma KeptWithStack(e: Env, op: Op, at: Time, db: Db, u: UpdateId, w: UpdateId)
    requires Ideal(e, op, at, db).Success? && u.stack == w.stack && w in db.updates
    requires u in db.updates && u in After(db, Ideal(e, op, at, db).value).updates
    ensures w in After(db, Ideal(e, op, at, db).value).updates
  {
  }

  /** No update is created on a stack with a live one. */
  lemma NotCreatedBeside(e: Env, op: Op, at: Time, db: Db, u: UpdateId, w: UpdateId)
    requires EncodingFacts(e) && DbOk(db) && FreshId(db, op) && Ideal(e, op, at, db).Success?
    requires Live(db, u) && u.stack == w.stack && w !in db.updates
    ensures w !in After(db, Ideal(e, op, at, db).value).updates
  {
    hide RowOk, AllVersionsOk, EncodingFacts, PlanRow, Versions, SaveDoc;
    if w in After(db, Ideal(e, op, at, db).value).updates {
      NumbersAreKept(e, op, at, db, GivenBaseline(RowsOf(op, db)), w);
    }
  }

  // --------------------------------------------------------------------- over runs

  lemma CommitKeepsCache(e: Env, s: State, step: Step)
    requires EncodingFacts(e) && Inv(e, s) && CacheOk(s) && Enabled(e, s, step) && step.Commit?
    ensures CacheOk(Next(e, s, step))
  {
    hide EncodingFacts, PlanWith, DbOk, LoadsGiven, SameOthers, Plan, Ready, After, LocksOk, Backed, Serial, PutsOk,
        DoomedOk;
    var t := Next(e, s, step);
    var tx := s.txs[step.id];
    assert StillValid(e, s, tx) && TxIds(s, tx.op);
    forall slot <- t.cache
      ensures slot.update in t.db.updates || slot.update in t.gone
      ensures Live(t.db, slot.update) ==> LoadsGiven(t.db, slot.update, t.cache[slot])
    {
      CachedUpdateAfter(e, tx.op, tx.prepared.value.at, s.db, slot.update);
      if Live(t.db, slot.update) {
        LiveWasLive(e, s, step, slot.update);
        OthersAreSettled(e, tx.op, tx.prepared.value.at, s.db, slot.update);
        SameOthersSameLoads(s.db, t.db, slot.update, s.cache[slot]);
      }
    }
  }

  lemma CachedUpdateAfter(e: Env, op: Op, at: Time, db: Db, u: UpdateId)
    requires Ideal(e, op, at, db).Success?
    ensures u in db.updates ==>
              u in After(db, Ideal(e, op, at, db).value).updates || u in Dropped(db, Ideal(e, op, at, db).value)
  {
  }

  lemma LiveWasLive(e: Env, s: State, step: Step, u: UpdateId)
    requires EncodingFacts(e) && Inv(e, s) && Enabled(e, s, step) && step.Commit?
    requires u in s.db.updates || u in s.gone
    requires Live(Next(e, s, step).db, u)
    ensures Live(s.db, u)
  {
    hide EncodingFacts, PlanWith, DbOk, Plan, Ready, After, LocksOk, Backed, Serial, PutsOk, DoomedOk;
    var tx := s.txs[step.id];
    assert StillValid(e, s, tx) && TxIds(s, tx.op);
    CommitKeepsIds(e, s, step);
    assert u !in Next(e, s, step).gone;
    if u in s.db.updates && Terminal(s.db.updates[u].status) {
      EndedStaysEnded(e, tx.op, tx.prepared.value.at, s.db, GivenBaseline(RowsOf(tx.op, s.db)), u);
    }
  }

  lemma FlushNeedsLive(e: Env, op: Op, at: Time, db: Db)
    requires Flushes(op) && Ideal(e, op, at, db).Success?
    ensures Live(db, op.update)
  {
  }

  lemma PrepareKeepsCache(e: Env, s: State, step: Step)
    requires EncodingFacts(e) && Inv(e, s) && CacheOk(s) && Enabled(e, s, step) && step.Prepare?
    ensures CacheOk(Next(e, s, step))
    ensures Flushes(s.txs[step.id].op) ==> Loads(e, s.db, s.blobs, s.txs[step.id].op.update, s.txs[step.id].op.base)
  {
    hide EncodingFacts, Ideal, Plan, Ready, DbOk, LoadsGiven, Loads, LocksOk, IdsOk, PreparedOk, Backed, Serial, PutsOk;
    var op := s.txs[step.id].op;
    if Flushes(op) {
      PrepareKeeps(e, s, step);
      FlushNeedsLive(e, op, s.now, s.db);
      LoadsWhatWasGiven(e, s.db, s.blobs, op.update, op.base);
    }
  }

  lemma StepKeepsCache(e: Env, s: State, step: Step)
    requires EncodingFacts(e) && Inv(e, s) && CacheOk(s) && Enabled(e, s, step)
    ensures CacheOk(Next(e, s, step))
  {
    hide EncodingFacts, Inv, Plan, Ready, LoadsGiven, After, BaseIsGiven;
    if step.Commit? { CommitKeepsCache(e, s, step); }
    else if step.Prepare? { PrepareKeepsCache(e, s, step); }
  }

  lemma {:induction false} CachesStayOk(e: Env, states: seq<State>, steps: seq<Step>, i: nat)
    requires EncodingFacts(e) && IsRun(e, states, steps) && i < |states|
    ensures CacheOk(states[i])
  {
    hide EncodingFacts, Inv, CacheOk;
    if i == 0 {
      NothingCached(states[0]);
    } else {
      CachesStayOk(e, states, steps, i - 1);
      At(e, states, steps, i - 1);
      StepKeepsCache(e, states[i - 1], steps[i - 1]);
    }
  }

  lemma NothingCached(s: State)
    requires Initial(s)
    ensures CacheOk(s)
  {
  }

  /**
   * Base cache coherence: whenever a flush is computed, on any replica and after any interleaving
   * of requests, aborts and evictions, the base it uses, cached or not, is what loading would give now.
   */
  lemma FlushStartsFromCurrentBase(e: Env, states: seq<State>, steps: seq<Step>, i: nat)
    requires EncodingFacts(e) && IsRun(e, states, steps) && i < |steps|
    requires steps[i].Prepare? && steps[i].id in states[i].txs && Flushes(states[i].txs[steps[i].id].op)
    ensures var op := states[i].txs[steps[i].id].op;
            Loads(e, states[i].db, states[i].blobs, op.update, op.base)
  {
    hide EncodingFacts, Inv, CacheOk, Loads, Enabled, Initial;
    At(e, states, steps, i);
    CachesStayOk(e, states, steps, i);
    PrepareKeepsCache(e, states[i], steps[i]);
  }
}
