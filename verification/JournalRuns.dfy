/**
 * Journal flushes over whole runs: what a flush writes is the replay, in sequence order, of the
 * client's entries for every number stored so far, on the base that loading would give now.
 */
module JournalRuns {
  import opened Wrappers
  import opened UpdateModel
  import opened UpdatePlans
  import opened Lifecycle
  import opened Transactions
  import opened BlobSafety
  import opened Runs
  import opened RunTheorems
  import opened LifecycleRuns
  import opened BaseCache
  import JournalReplay
  import JournalStore
  import JournalTypes

  /** The entry the client gives each sequence number of each update. */
  type Client = (UpdateId, int) -> JournalTypes.Entry

  predicate FromClient(client: Client, op: Op) {
    op.Journal? ==> forall row <- op.batch :: row.entry == client(op.update, row.sequenceId)
  }

  predicate JournalAgrees(client: Client, u: UpdateId, journal: JournalStore.Stored) {
    forall k <- journal :: journal[k] == client(u, k)
  }

  ghost predicate Agrees(client: Client, db: Db) {
    forall u <- db.updates :: JournalAgrees(client, u, db.updates[u].journal)
  }

  lemma {:induction false} InsertsAgree(
      client: Client, u: UpdateId, stored: JournalStore.Stored, batch: seq<JournalStore.Posted>)
    requires JournalAgrees(client, u, stored) && forall row <- batch :: row.entry == client(u, row.sequenceId)
    ensures JournalAgrees(client, u, JournalStore.InsertRows(stored, batch))
  {
    if batch != [] {
      var init, last := batch[..|batch| - 1], batch[|batch| - 1];
      assert last in batch;
      InsertsAgree(client, u, stored, init);
    }
  }

  lemma RowJournal(e: Env, op: Op, row: UpdateRow, at: Time, base: Baseline)
    requires (OnRow(op) || OnRowAndStack(op)) && PlanRow(e, op, row, at, base).Success?
    ensures forall u <- PlanRow(e, op, row, at, base).value.rows :: u == op.update
    ensures op.update in PlanRow(e, op, row, at, base).value.rows ==>
              PlanRow(e, op, row, at, base).value.rows[op.update].journal ==
              if op.Journal? then JournalStore.InsertRows(row.journal, op.batch) else row.journal
  {
    hide JournalStore.InsertRows, JournalStore.Flushed, CodeUnits, NextVersion, Edited;
  }

  lemma RowRequestAgrees(e: Env, client: Client, op: Op, at: Time, db: Db)
    requires Agrees(client, db) && FromClient(client, op) && Ideal(e, op, at, db).Success?
    requires (OnRow(op) || OnRowAndStack(op)) && op.update in db.updates
    ensures Agrees(client, After(db, Ideal(e, op, at, db).value))
  {
    hide PlanRow, JournalAgrees, JournalStore.InsertRows;
    var row := db.updates[op.update];
    RowJournal(e, op, row, at, GivenBaseline(row.rows));
    if op.Journal? { InsertsAgree(client, op.update, row.journal, op.batch); }
    DroppedNone(e, op, row, at, GivenBaseline(row.rows));
  }

  lemma RequestAgrees(e: Env, client: Client, op: Op, at: Time, db: Db)
    requires Agrees(client, db) && FromClient(client, op) && FreshId(db, op) && Ideal(e, op, at, db).Success?
    ensures Agrees(client, After(db, Ideal(e, op, at, db).value))
  {
    hide Ideal, After, JournalAgrees, FromClient;
    if OnRow(op) || OnRowAndStack(op) {
      if op.update in db.updates {
        RowRequestAgrees(e, client, op, at, db);
      } else {
        MissingChangesNothing(e, op, at, db);
      }
    } else {
      var after := After(db, Ideal(e, op, at, db).value);
      forall u <- after.updates ensures JournalAgrees(client, u, after.updates[u].journal) {
        WholeRequestKeepsContents(e, op, at, db, u);
        if u !in db.updates { EmptyAgrees(client, u); }
      }
    }
  }

  lemma DroppedNone(e: Env, op: Op, row: UpdateRow, at: Time, base: Baseline)
    requires (OnRow(op) || OnRowAndStack(op)) && PlanRow(e, op, row, at, base).Success?
    ensures PlanRow(e, op, row, at, base).value.dropped.None?
  {
    hide JournalStore.InsertRows, JournalStore.Flushed, CodeUnits, NextVersion, Edited;
  }

  lemma EmptyAgrees(client: Client, u: UpdateId)
    ensures JournalAgrees(client, u, map[])
  {
  }

  ghost predicate AllFromClient(client: Client, steps: seq<Step>) {
    forall step <- steps :: step.Begin? ==> FromClient(client, step.op)
  }

  lemma {:induction false} OpsFromClient(
      e: Env, client: Client, states: seq<State>, steps: seq<Step>, i: nat, t: TxId)
    requires IsRun(e, states, steps) && AllFromClient(client, steps) && i < |states| && t in states[i].txs
    ensures FromClient(client, states[i].txs[t].op)
  {
    hide FromClient, Plan, Ready, BaseIsGiven, MayRequest, After;
    if i > 0 {
      assert states[i - 1 + 1] == Next(e, states[i - 1], steps[i - 1]);
      assert steps[i - 1] in steps;
      if t in states[i - 1].txs { OpsFromClient(e, client, states, steps, i - 1, t); }
    }
  }

  lemma {:induction false} JournalsAgree(e: Env, client: Client, states: seq<State>, steps: seq<Step>, i: nat)
    requires EncodingFacts(e) && IsRun(e, states, steps) && AllFromClient(client, steps) && i < |states|
    ensures Agrees(client, states[i].db)
  {
    hide EncodingFacts, Enabled, Next, PlanWith, DbOk, AllFromClient, FromClient, JournalAgrees, After, Ready;
    if i > 0 {
      JournalsAgree(e, client, states, steps, i - 1);
      TablesChangeByCommits(e, states, steps, i - 1);
      if steps[i - 1].Commit? {
        var tx := states[i - 1].txs[steps[i - 1].id];
        OpsFromClient(e, client, states, steps, i - 1, steps[i - 1].id);
        RequestAgrees(e, client, tx.op, tx.prepared.value.at, states[i - 1].db);
      }
    }
  }

  /** The client's entries for some numbers of one update. */
  function Given(client: Client, u: UpdateId, numbers: set<int>): JournalStore.Stored {
    map k <- numbers :: client(u, k)
  }

  lemma InsertsGiven(client: Client, u: UpdateId, stored: JournalStore.Stored, batch: seq<JournalStore.Posted>)
    requires JournalAgrees(client, u, stored) && forall row <- batch :: row.entry == client(u, row.sequenceId)
    ensures JournalStore.InsertRows(stored, batch) == Given(client, u, stored.Keys + JournalStore.Numbers(batch))
  {
    hide JournalStore.InsertRows;
    InsertsAgree(client, u, stored, batch);
    JournalStore.InsertStores(stored, batch);
    var after, given := JournalStore.InsertRows(stored, batch),
        Given(client, u, stored.Keys + JournalStore.Numbers(batch));
    assert after.Keys == given.Keys;
    assert forall k <- given :: after[k] == given[k];
  }

  /** What an accepted flush writes. */
  lemma FlushedRow(e: Env, op: Op, row: UpdateRow, at: Time)
    requires Flushes(op) && PlanJournal(e, op.update, row, op.batch, op.base, at).Success?
    ensures var after := PlanJournal(e, op.update, row, op.batch, op.base, at).value.rows;
            var stored := JournalStore.InsertRows(row.journal, op.batch);
            && op.update in after
            && NextVersion(row.rows) in after[op.update].rows
            && after[op.update].rows[NextVersion(row.rows)].Full?
            && after[op.update].rows[NextVersion(row.rows)].doc == JournalStore.Flushed(op.base, stored)
            && after[op.update].journal == stored
  {
    hide JournalStore.InsertRows, JournalStore.Flushed, CodeUnits;
    assert op.batch != [];
  }

  /**
   * Whatever the batching, repetition and arrival order of the client's entries in the run, the
   * checkpoint a flush adds is the replay in sequence order of the client's entries for all
   * numbers stored so far and in this batch, on the base that loading would give now.
   */
  lemma FlushIsReplay(e: Env, client: Client, states: seq<State>, steps: seq<Step>, i: nat)
    requires EncodingFacts(e) && IsRun(e, states, steps) && AllFromClient(client, steps) && i < |steps|
    requires steps[i].Prepare? && steps[i].id in states[i].txs && Flushes(states[i].txs[steps[i].id].op)
    ensures
      var s, op := states[i], states[i].txs[steps[i].id].op;
      var p := states[i + 1].txs[steps[i].id].prepared;
      && op.update in s.db.updates
      && p.Some? && op.update in p.value.change.rows
      && var row, row' := s.db.updates[op.update], p.value.change.rows[op.update];
      && var numbers := row.journal.Keys + JournalStore.Numbers(op.batch);
      && NextVersion(row.rows) in row'.rows && row'.rows[NextVersion(row.rows)].Full?
      && row'.rows[NextVersion(row.rows)].doc ==
           JournalReplay.Replayed(op.base, JournalStore.InOrder(Given(client, op.update, numbers)))
      && Loads(e, s.db, s.blobs, op.update, op.base)
  {
    hide EncodingFacts, Loads, Inv, CacheOk, AllFromClient, JournalAgrees, NextVersion, JournalStore.InsertRows,
      JournalStore.InOrder, PlanJournal, Ready, BaseIsGiven;
    var s, op := states[i], states[i].txs[steps[i].id].op;
    At(e, states, steps, i);
    FlushStartsFromCurrentBase(e, states, steps, i);
    JournalsAgree(e, client, states, steps, i);
    OpsFromClient(e, client, states, steps, i, steps[i].id);
    FlushPlan(e, s, op);
    FlushedRow(e, op, s.db.updates[op.update], s.now);
    InsertsGiven(client, op.update, s.db.updates[op.update].journal, op.batch);
  }

  lemma FlushPlan(e: Env, s: State, op: Op)
    requires Flushes(op) && Plan(e, op, s.now, s.db, s.blobs).Success?
    ensures op.update in s.db.updates
    ensures Plan(e, op, s.now, s.db, s.blobs) ==
            PlanJournal(e, op.update, s.db.updates[op.update], op.batch, op.base, s.now)
  {
    hide PlanJournal;
    assert op.batch != [];
  }

  // --------------------------------------------------------------------- what is stored

  /** Step `j` commits a batch for `u` that holds the number. */
  ghost predicate Posts(states: seq<State>, steps: seq<Step>, j: nat, u: UpdateId, number: int) {
    exists op, at :: CommitsAt(states, steps, j, op, at)
      && op.Journal? && op.update == u && number in JournalStore.Numbers(op.batch)
  }

  lemma RequestJournal(e: Env, op: Op, at: Time, db: Db, u: UpdateId)
    requires FreshId(db, op) && Ideal(e, op, at, db).Success? && u in After(db, Ideal(e, op, at, db).value).updates
    ensures var after := After(db, Ideal(e, op, at, db).value).updates[u].journal;
            if u !in db.updates then after == map[]
            else if op.Journal? && op.update == u then after == JournalStore.InsertRows(db.updates[u].journal, op.batch)
            else after == db.updates[u].journal
    ensures op.Journal? && op.update == u && u !in db.updates ==> op.batch == []
  {
    hide PlanRow, JournalStore.InsertRows, SaveDoc, Versions, Latest, OrphanKeys, Populated, SweepChange;
    if OnRow(op) || OnRowAndStack(op) {
      if op.update in db.updates {
        var row := db.updates[op.update];
        RowJournal(e, op, row, at, GivenBaseline(row.rows));
        DroppedNone(e, op, row, at, GivenBaseline(row.rows));
        if op.Journal? && op.update !in Ideal(e, op, at, db).value.rows {
          NothingPosted(e, op, row, at, GivenBaseline(row.rows));
        }
      } else {
        MissingChangesNothing(e, op, at, db);
      }
    } else {
      WholeRequestKeepsContents(e, op, at, db, u);
    }
  }

  lemma NothingPosted(e: Env, op: Op, row: UpdateRow, at: Time, base: Baseline)
    requires op.Journal? && PlanRow(e, op, row, at, base).Success?
    requires op.update !in PlanRow(e, op, row, at, base).value.rows
    ensures JournalStore.InsertRows(row.journal, op.batch) == row.journal
  {
    hide JournalStore.Flushed, CodeUnits, NextVersion;
  }

  lemma StepJournal(e: Env, states: seq<State>, steps: seq<Step>, p: nat, u: UpdateId, number: int)
    requires EncodingFacts(e) && IsRun(e, states, steps) && p < |steps| && u in states[p + 1].db.updates
    ensures number in states[p + 1].db.updates[u].journal <==>
            || (u in states[p].db.updates && number in states[p].db.updates[u].journal)
            || Posts(states, steps, p, u, number)
    ensures Posts(states, steps, p, u, number) ==> u in states[p].db.updates
  {
    hide EncodingFacts, DbOk, Ideal, Ready, Enabled, Next, Initial, After, JournalStore.InsertRows;
    TablesChangeByCommits(e, states, steps, p);
    if steps[p].Commit? {
      var tx := states[p].txs[steps[p].id];
      RequestJournal(e, tx.op, tx.prepared.value.at, states[p].db, u);
      assert CommitsAt(states, steps, p, tx.op, tx.prepared.value.at);
      if tx.op.Journal? && u in states[p].db.updates {
        JournalStore.InsertStores(states[p].db.updates[u].journal, tx.op.batch);
      }
    }
  }

  /** A batch is committed for an update that is there, or is empty. */
  lemma PostedIsThere(e: Env, states: seq<State>, steps: seq<Step>, j: nat, u: UpdateId, number: int)
    requires EncodingFacts(e) && IsRun(e, states, steps) && j < |steps| && Posts(states, steps, j, u, number)
    ensures u in states[j].db.updates
  {
    hide EncodingFacts, DbOk, PlanRow, Ready, Enabled, Next, Initial, After;
    TablesChangeByCommits(e, states, steps, j);
  }

  /** The numbers stored for an update are exactly those of the batches committed for it. */
  lemma {:induction false} StoredIsPosted(
      e: Env, states: seq<State>, steps: seq<Step>, i: nat, u: UpdateId, number: int)
    requires EncodingFacts(e) && IsRun(e, states, steps) && i < |states| && u in states[i].db.updates
    ensures number in states[i].db.updates[u].journal <==>
            exists j: nat :: j < i && Posts(states, steps, j, u, number)
  {
    hide EncodingFacts, Enabled, Next, Posts;
    NothingAtFirst(e, states, steps, u);
    var p := i - 1;
    StepJournal(e, states, steps, p, u, number);
    if u in states[p].db.updates {
      StoredIsPosted(e, states, steps, p, u, number);
    } else {
      forall j: nat | j < p ensures !Posts(states, steps, j, u, number) {
        if Posts(states, steps, j, u, number) {
          PostedIsThere(e, states, steps, j, u, number);
          ThereBefore(e, states, steps, j, p, u);
        }
      }
    }
  }
}
