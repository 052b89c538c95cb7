/** What the invariant of the concurrent service says over whole runs. */
module RunTheorems {
  import opened Wrappers
  import opened UpdateModel
  import opened UpdatePlans
  import opened Lifecycle
  import opened Transactions
  import opened Atomicity
  import opened BlobSafety
  import opened Runs

  /** Run position `i` is safe, and step `i`, when there is one, leads to the next state. */
  lemma At(e: Env, states: seq<State>, steps: seq<Step>, i: nat)
    requires EncodingFacts(e) && IsRun(e, states, steps) && i < |states|
    ensures Inv(e, states[i])
    ensures i < |steps| ==> Enabled(e, states[i], steps[i]) && states[i + 1] == Next(e, states[i], steps[i])
  {
    hide Inv, EncodingFacts, Initial, Enabled;
    RunsAreSafe(e, states, steps, i);
  }

  // --------------------------------------------------------------------- blobs

  /** A committed checkpoint or baseline reads back as exactly what it was saved from, in every state of a run. */
  lemma RowsReadBack(e: Env, states: seq<State>, steps: seq<Step>, i: nat, u: UpdateId, v: nat)
    requires EncodingFacts(e) && IsRun(e, states, steps) && i < |states|
    requires u in states[i].db.updates && v in states[i].db.updates[u].rows
    ensures var s, r := states[i], states[i].db.updates[u].rows[v];
            && RowBacked(e, r, s.blobs)
            && (r.Full? ==> ReadDoc(e, r, s.blobs) == Some(r.doc))
            && (r.Base? ==> ReadBaseline(e, s.db.updates[u].rows, s.blobs) == Retained(r.number, r.text))
  {
    hide EncodingFacts, IsRun, LocksOk, IdsOk, PreparedOk, DoomedOk, PutsOk, Serial, BytesOf, ReadDoc, ReadBaseline;
    At(e, states, steps, i);
    var s := states[i];
    var row := s.db.updates[u];
    assert RowOk(u, row) && RowBacked(e, row.rows[v], s.blobs);
    if row.rows[v].Full? {
      RowReadsBack(e, row.rows[v], s.blobs);
    } else {
      BaselineReadsBack(e, u, row.rows, s.blobs);
    }
  }

  ghost predicate Referred(db: Db, k: Key) {
    exists u: UpdateId, v: nat :: u in db.updates && v in db.updates[u].rows && db.updates[u].rows[v].key == Some(k)
  }

  /** A put never writes a key that a committed row refers to. */
  lemma PutsHitNoReferredKey(e: Env, states: seq<State>, steps: seq<Step>, i: nat)
    requires EncodingFacts(e) && IsRun(e, states, steps) && i < |steps| && steps[i].PutBlob?
    ensures !Referred(states[i].db, steps[i].key)
  {
    hide EncodingFacts, ChangeKeys, Footprint, DbOk, IdsOk, PreparedOk, LocksOk, Plan, PlanWith, Ready;
    At(e, states, steps, i);
    var s := states[i];
    var c := s.txs[steps[i].id].prepared.value.change;
    PreparedKeys(e, s, steps[i].id);
    DbParts(s.db);
    if Referred(s.db, steps[i].key) {
      var u, v :| u in s.db.updates && v in s.db.updates[u].rows && s.db.updates[u].rows[v].key == Some(steps[i].key);
      PutIsUnused(e, s.db, c, steps[i].key, u, v);
    }
  }

  lemma {:induction false} DoomedForever(e: Env, states: seq<State>, steps: seq<Step>, i: nat, j: nat, k: Key)
    requires IsRun(e, states, steps) && i <= j < |states| && k in states[i].doomed
    ensures k in states[j].doomed
  {
    hide After, Plan, Ready;
    if i < j {
      DoomedForever(e, states, steps, i, j - 1, k);
      assert states[j - 1 + 1] == Next(e, states[j - 1], steps[j - 1]);
    }
  }

  /** Once a key is left to be deleted no committed row refers to it, then or later, however late the delete is. */
  lemma DeletesHitNoReferredKey(e: Env, states: seq<State>, steps: seq<Step>, i: nat, j: nat, k: Key)
    requires EncodingFacts(e) && IsRun(e, states, steps) && i <= j < |states| && k in states[i].doomed
    ensures !Referred(states[j].db, k)
  {
    hide EncodingFacts, IsRun, Dead, RowOk, LocksOk, PreparedOk, Backed, Serial, PutsOk;
    DoomedForever(e, states, steps, i, j, k);
    At(e, states, steps, j);
    var s := states[j];
    if Referred(s.db, k) {
      var u, v :| u in s.db.updates && v in s.db.updates[u].rows && s.db.updates[u].rows[v].key == Some(k);
      ReferredIsAlive(s.db, s.gone, u, v);
    }
  }

  // --------------------------------------------------------------------- serial order, no deadlock

  /** The tables are always what the commits so far give when run one at a time, each accepted. */
  lemma CommitsAreSerial(e: Env, states: seq<State>, steps: seq<Step>, i: nat)
    requires EncodingFacts(e) && IsRun(e, states, steps) && i < |states|
    ensures states[i].db == Executed(e, states[i].log) && AllAccepted(e, states[i].log)
  {
    hide EncodingFacts, IsRun, Executed, AllAccepted;
    At(e, states, steps, i);
  }

  /** No state of a run holds a cycle of waiting transactions. */
  lemma RunsNeverDeadlock(e: Env, states: seq<State>, steps: seq<Step>, i: nat, ts: seq<TxId>)
    requires EncodingFacts(e) && IsRun(e, states, steps) && i < |states|
    ensures !IsCycle(states[i], ts)
  {
    hide EncodingFacts, IsRun, LocksOk, IsCycle;
    At(e, states, steps, i);
    NoDeadlock(states[i], ts);
  }

  // --------------------------------------------------------------------- one step on the tables

  /** A step changes the tables only by committing an accepted request on tables that are well formed. */
  lemma TablesChangeByCommits(e: Env, states: seq<State>, steps: seq<Step>, i: nat)
    requires EncodingFacts(e) && IsRun(e, states, steps) && i < |steps|
    ensures DbOk(states[i].db)
    ensures !steps[i].Commit? ==> states[i + 1].db == states[i].db
    ensures steps[i].Commit? ==>
      var s := states[i];
      && steps[i].id in s.txs && s.txs[steps[i].id].prepared.Some?
      && var tx := s.txs[steps[i].id];
      && FreshId(s.db, tx.op)
      && tx.prepared.value.at <= s.now
      && Ready(s.db, tx.op, tx.held)
      && Ideal(e, tx.op, tx.prepared.value.at, s.db) == Success(tx.prepared.value.change)
      && states[i + 1].db == After(s.db, tx.prepared.value.change)
  {
    hide EncodingFacts, DbOk, After, PlanWith, LocksOk, Backed, Serial, DoomedOk, PutsOk, Plan, Ready;
    At(e, states, steps, i);
    var s := states[i];
    if steps[i].Commit? {
      assert StillValid(e, s, s.txs[steps[i].id]) && TxIds(s, s.txs[steps[i].id].op);
    }
  }

  // --------------------------------------------------------------------- ended updates

  predicate EndedAlike(row: UpdateRow, row': UpdateRow) {
    row' == row || row' == row.(rows := row.rows - {DELTA_BASE_VERSION})
  }

  /** An update that has ended keeps its status, checkpoints, journal and events for the rest of the run. */
  lemma {:induction false} EndedForever(e: Env, states: seq<State>, steps: seq<Step>, i: nat, j: nat, u: UpdateId)
    requires EncodingFacts(e) && IsRun(e, states, steps) && i <= j < |states|
    requires u in states[i].db.updates && Terminal(states[i].db.updates[u].status)
    ensures if u in states[j].db.updates then EndedAlike(states[i].db.updates[u], states[j].db.updates[u])
            else u in states[j].gone
  {
    hide EncodingFacts, Ideal, DbOk, After, Plan, Ready, Enabled, Next;
    if i < j {
      EndedForever(e, states, steps, i, j - 1, u);
      if u in states[j - 1].db.updates {
        EndedStep(e, states, steps, j - 1, u);
      } else {
        GoneForever(e, states, steps, j - 1, u);
      }
    }
  }

  lemma GoneForever(e: Env, states: seq<State>, steps: seq<Step>, i: nat, u: UpdateId)
    requires EncodingFacts(e) && IsRun(e, states, steps) && i < |steps| && u in states[i].gone
    ensures u in states[i + 1].gone && u !in states[i + 1].db.updates
  {
    hide EncodingFacts, After, Plan, Ready, DbOk, Inv;
    At(e, states, steps, i);
    At(e, states, steps, i + 1);
    assert u in states[i + 1].gone;
    GoneIsNotLive(e, states[i + 1], u);
  }

  lemma GoneIsNotLive(e: Env, s: State, u: UpdateId)
    requires Inv(e, s) && u in s.gone
    ensures u !in s.db.updates
  {
  }

  /** What is there now and was there before has been there all along. */
  lemma ThereBefore(e: Env, states: seq<State>, steps: seq<Step>, j: nat, p: nat, w: UpdateId)
    requires EncodingFacts(e) && IsRun(e, states, steps) && j <= p < |steps|
    requires w in states[j].db.updates && w in states[p + 1].db.updates
    ensures w in states[p].db.updates
  {
    hide EncodingFacts, Enabled, Next, Initial;
    if w !in states[p].db.updates {
      ThereOrGone(e, states, steps, j, p, w);
      GoneForever(e, states, steps, p, w);
    }
  }

  lemma {:induction false} ThereOrGone(e: Env, states: seq<State>, steps: seq<Step>, j: nat, i: nat, w: UpdateId)
    requires EncodingFacts(e) && IsRun(e, states, steps) && j <= i < |states| && w in states[j].db.updates
    ensures w in states[i].db.updates || w in states[i].gone
  {
    hide EncodingFacts, Plan, Ready, DbOk, Ideal, After, Dropped;
    if j < i {
      var p := i - 1;
      ThereOrGone(e, states, steps, j, p, w);
      TablesChangeByCommits(e, states, steps, p);
      assert states[p + 1] == Next(e, states[p], steps[p]);
      if steps[p].Commit? && w in states[p].db.updates {
        DeletedIsGone(e, states[p].txs[steps[p].id].op, states[p].txs[steps[p].id].prepared.value.at, states[p].db, w);
      }
    }
  }

  lemma EndedStep(e: Env, states: seq<State>, steps: seq<Step>, i: nat, u: UpdateId)
    requires EncodingFacts(e) && IsRun(e, states, steps) && i < |steps|
    requires u in states[i].db.updates && Terminal(states[i].db.updates[u].status)
    ensures if u in states[i + 1].db.updates then EndedAlike(states[i].db.updates[u], states[i + 1].db.updates[u])
            else u in states[i + 1].gone
  {
    hide EncodingFacts, PlanWith, DbOk, After, Plan, Ready;
    TablesChangeByCommits(e, states, steps, i);
    if steps[i].Commit? {
      var s, tx := states[i], states[i].txs[steps[i].id];
      EndedStaysEnded(e, tx.op, tx.prepared.value.at, s.db, GivenBaseline(RowsOf(tx.op, s.db)), u);
      DeletedIsGone(e, tx.op, tx.prepared.value.at, s.db, u);
    }
  }

  /** Step `j` commits a sweep that ends `u` while it has a baseline. */
  ghost predicate SweepsBase(e: Env, states: seq<State>, steps: seq<Step>, j: nat, u: UpdateId)
    requires j < |steps| && j < |states|
  {
    && steps[j].Commit? && steps[j].id in states[j].txs
    && var op, db := states[j].txs[steps[j].id].op, states[j].db;
    && op.Sweep? && u in Orphans(e, db, op.stacks, op.chosen, op.readAt)
    && DELTA_BASE_VERSION in db.updates[u].rows
  }

  predicate Cancels(states: seq<State>, steps: seq<Step>, k: nat, u: UpdateId)
    requires k < |steps| && k < |states|
  {
    steps[k].Commit? && steps[k].id in states[k].txs && states[k].txs[steps[k].id].op == Cancel(u)
  }

  ghost predicate KeptSince(e: Env, states: seq<State>, steps: seq<Step>, j: nat, i: nat, u: UpdateId)
    requires j < i <= |steps| && |steps| < |states|
  {
    SweepsBase(e, states, steps, j, u) && forall k: nat :: j < k < i ==> !Cancels(states, steps, k, u)
  }

  /**
   * An ended update has a baseline exactly when a committed sweep ended it while it had one, and
   * no cancellation of it has committed since.
   */
  lemma {:induction false} EndedKeepsBaseExactly(e: Env, states: seq<State>, steps: seq<Step>, i: nat, u: UpdateId)
    requires EncodingFacts(e) && IsRun(e, states, steps) && i < |states|
    requires u in states[i].db.updates && Terminal(states[i].db.updates[u].status)
    ensures DELTA_BASE_VERSION in states[i].db.updates[u].rows <==>
            exists j: nat :: j < i && KeptSince(e, states, steps, j, i, u)
  {
    hide EncodingFacts, Enabled, Next, DbOk, After, Ideal, Ready, SweepsBase, Cancels;
    NothingAtFirst(e, states, steps, u);
    var p := i - 1;
    TablesChangeByCommits(e, states, steps, p);
    if u in states[p].db.updates && Terminal(states[p].db.updates[u].status) {
      EndedKeepsBaseExactly(e, states, steps, p, u);
      AlreadyEnded(e, states, steps, p, u);
      SweepsOnlyLive(e, states, steps, p, u);
      if exists j: nat :: j < i && KeptSince(e, states, steps, j, i, u) {
        var j: nat :| j < i && KeptSince(e, states, steps, j, i, u);
        assert KeptSince(e, states, steps, j, p, u);
      }
      if !Cancels(states, steps, p, u) && exists j: nat :: j < p && KeptSince(e, states, steps, j, p, u) {
        var j: nat :| j < p && KeptSince(e, states, steps, j, p, u);
        assert KeptSince(e, states, steps, j, i, u);
      }
    } else {
      JustEnded(e, states, steps, p, u);
      forall j: nat | j < p ensures !KeptSince(e, states, steps, j, i, u) { SweptEarlier(e, states, steps, j, p, u); }
      assert SweepsBase(e, states, steps, p, u) ==> KeptSince(e, states, steps, p, i, u);
    }
  }

  lemma NothingAtFirst(e: Env, states: seq<State>, steps: seq<Step>, u: UpdateId)
    requires IsRun(e, states, steps)
    ensures u !in states[0].db.updates
  {
  }

  lemma AlreadyEnded(e: Env, states: seq<State>, steps: seq<Step>, p: nat, u: UpdateId)
    requires EncodingFacts(e) && IsRun(e, states, steps) && p < |steps|
    requires u in states[p].db.updates && Terminal(states[p].db.updates[u].status) && u in states[p + 1].db.updates
    ensures DELTA_BASE_VERSION in states[p + 1].db.updates[u].rows <==>
            DELTA_BASE_VERSION in states[p].db.updates[u].rows && !Cancels(states, steps, p, u)
  {
    hide EncodingFacts, Enabled, Next, DbOk, After, PlanWith, Ready, Initial;
    TablesChangeByCommits(e, states, steps, p);
    if steps[p].Commit? {
      var s, tx := states[p], states[p].txs[steps[p].id];
      EndedStaysEnded(e, tx.op, tx.prepared.value.at, s.db, GivenBaseline(RowsOf(tx.op, s.db)), u);
    }
  }

  lemma SweepsOnlyLive(e: Env, states: seq<State>, steps: seq<Step>, p: nat, u: UpdateId)
    requires p < |steps| && p < |states|
    requires u in states[p].db.updates && Terminal(states[p].db.updates[u].status)
    ensures !SweepsBase(e, states, steps, p, u)
  {
  }

  lemma JustEnded(e: Env, states: seq<State>, steps: seq<Step>, p: nat, u: UpdateId)
    requires EncodingFacts(e) && IsRun(e, states, steps) && p < |steps|
    requires u in states[p].db.updates ==> !Terminal(states[p].db.updates[u].status)
    requires u in states[p + 1].db.updates && Terminal(states[p + 1].db.updates[u].status)
    ensures DELTA_BASE_VERSION in states[p + 1].db.updates[u].rows <==> SweepsBase(e, states, steps, p, u)
  {
    hide EncodingFacts, Enabled, Next, DbOk, After, Ideal, Ready, Initial;
    TablesChangeByCommits(e, states, steps, p);
    assert steps[p].Commit?;
    var s, tx := states[p], states[p].txs[steps[p].id];
    EndingRequest(e, tx.op, tx.prepared.value.at, s.db, u);
  }

  /** What a sweep has ended before is ended or gone, so it does not end now. */
  lemma SweptEarlier(e: Env, states: seq<State>, steps: seq<Step>, j: nat, p: nat, u: UpdateId)
    requires EncodingFacts(e) && IsRun(e, states, steps) && j < p < |steps|
    requires u in states[p].db.updates ==> !Terminal(states[p].db.updates[u].status)
    requires u in states[p + 1].db.updates
    ensures !SweepsBase(e, states, steps, j, u)
  {
    hide EncodingFacts, Enabled, Next, DbOk, Ready, Initial, Expired, Stale;
    if SweepsBase(e, states, steps, j, u) {
      TablesChangeByCommits(e, states, steps, j);
      EndedForever(e, states, steps, j + 1, p, u);
      if u !in states[p].db.updates { GoneForever(e, states, steps, p, u); }
    }
  }

  lemma DeletedIsGone(e: Env, op: Op, at: Time, db: Db, u: UpdateId)
    requires Ideal(e, op, at, db).Success? && u in db.updates
    ensures u !in After(db, Ideal(e, op, at, db).value).updates ==> u in Dropped(db, Ideal(e, op, at, db).value)
  {
  }
}
