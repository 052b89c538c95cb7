/** Which blob keys are left to be deleted: exactly those that a committed row has referred to and none does now. */
module BlobHistory {
  import opened Wrappers
  import opened UpdateModel
  import opened UpdatePlans
  import opened Lifecycle
  import opened Transactions
  import opened BlobSafety
  import opened Runs
  import opened RunTheorems
  import opened LifecycleRuns
  import opened CheckpointHistory
  import JournalStore

  predicate RefersAt(db: Db, k: Key, u: UpdateId, v: nat) {
    u in db.updates && v in db.updates[u].rows && db.updates[u].rows[v].key == Some(k)
  }

  // --------------------------------------------------------------------- one request

  /** The baseline row stays, or its key is left to be deleted. */
  predicate BaseLeft(rows: map<nat, Row>, rows': map<nat, Row>, dooms: set<Key>) {
    DELTA_BASE_VERSION in rows ==>
      || (DELTA_BASE_VERSION in rows' && rows'[DELTA_BASE_VERSION] == rows[DELTA_BASE_VERSION])
      || (rows[DELTA_BASE_VERSION].key.Some? ==> rows[DELTA_BASE_VERSION].key.value in dooms)
  }

  lemma RowRequestBase(e: Env, op: Op, row: UpdateRow, at: Time, base: Baseline)
    requires (OnRow(op) || OnRowAndStack(op)) && Numbered(row.rows) && PlanRow(e, op, row, at, base).Success?
    ensures var c := PlanRow(e, op, row, at, base).value;
            && (op.update in c.rows ==> BaseLeft(row.rows, c.rows[op.update].rows, c.dooms))
            && c.dooms <= BaseKeys(row.rows)
  {
    hide Edited, CodeUnits, NextVersion, JournalStore.InsertRows, JournalStore.Flushed;
    NextVersionIsNew(row.rows);
  }

  lemma RowRequestDooms(e: Env, op: Op, at: Time, db: Db, k: Key, u: UpdateId, v: nat)
    requires (OnRow(op) || OnRowAndStack(op)) && op.update in db.updates
    requires AllRowsOk(db) && Ideal(e, op, at, db).Success? && RefersAt(db, k, u, v)
    ensures RefersAt(After(db, Ideal(e, op, at, db).value), k, u, v) || k in Ideal(e, op, at, db).value.dooms
  {
    hide PlanRow, RowOk, Moves, NewSave;
    var row := db.updates[op.update];
    NumberedRow(db, op.update);
    NumberedRow(db, u);
    RowRequestMoves(e, op, row, at, GivenBaseline(row.rows));
    RowRequestBase(e, op, row, at, GivenBaseline(row.rows));
    if op.update in Ideal(e, op, at, db).value.rows {
      RowRequestFull(e, op, row, at, GivenBaseline(row.rows));
    }
  }

  lemma DeletionDooms(db: Db, s: StackId, k: Key, u: UpdateId, v: nat)
    requires AllRowsOk(db) && RefersAt(db, k, u, v) && u.stack == s
    ensures k in OrphanKeys(db, s)
  {
    assert RowOk(u, db.updates[u]);
    assert k in Keys(db.updates[u].rows) && k in StackKeys(db, s);
    forall w, x | RefersAt(db, k, w, x) ensures w == u { assert RowOk(w, db.updates[w]); }
    assert !ReferredElsewhere(db, s, k) by {
      if ReferredElsewhere(db, s, k) {
        var w :| w in db.updates && w.stack != s
                 && exists x <- db.updates[w].rows :: db.updates[w].rows[x].key == Some(k);
        var x :| x in db.updates[w].rows && db.updates[w].rows[x].key == Some(k);
        assert RefersAt(db, k, w, x);
      }
    }
  }

  lemma RequestDooms(e: Env, op: Op, at: Time, db: Db, k: Key, u: UpdateId, v: nat)
    requires AllRowsOk(db) && FreshId(db, op) && Ideal(e, op, at, db).Success? && RefersAt(db, k, u, v)
    ensures RefersAt(After(db, Ideal(e, op, at, db).value), k, u, v) || k in Ideal(e, op, at, db).value.dooms
  {
    hide PlanRow, RowOk, SaveDoc, Versions, Latest, Populated, OrphanKeys, Expired, Stale;
    if OnRow(op) || OnRowAndStack(op) {
      if op.update in db.updates {
        RowRequestDooms(e, op, at, db, k, u, v);
      } else {
        MissingChangesNothing(e, op, at, db);
      }
    } else if op.Delete? {
      if u.stack == op.stack { DeletionDooms(db, op.stack, k, u, v); }
    } else {
      if !(op.ImportDoc? && op.id == u) {
        StaysUndeleted(e, op, at, db, u);
        WholeRequestRows(e, op, at, db, u);
      }
    }
  }

  lemma StaysUndeleted(e: Env, op: Op, at: Time, db: Db, u: UpdateId)
    requires !OnRow(op) && !OnRowAndStack(op) && !op.Delete? && Ideal(e, op, at, db).Success? && u in db.updates
    ensures u in After(db, Ideal(e, op, at, db).value).updates
  {
    hide Orphans, FullRow, Puts, Versions, Latest;
  }

  /** What is left to be deleted was referred to until then. */
  lemma DoomsWereReferred(e: Env, op: Op, at: Time, db: Db, k: Key)
    requires AllRowsOk(db) && Ideal(e, op, at, db).Success? && k in Ideal(e, op, at, db).value.dooms
    ensures Referred(db, k)
  {
    hide PlanRow, RowOk, FullRow, Puts, Versions, Latest, Populated, ReferredElsewhere, Orphans;
    if OnRow(op) || OnRowAndStack(op) {
      var row := db.updates[op.update];
      NumberedRow(db, op.update);
      RowRequestBase(e, op, row, at, GivenBaseline(row.rows));
      assert db.updates[op.update].rows[DELTA_BASE_VERSION].key == Some(k);
    } else if op.Delete? {
      var u :| u in db.updates && u.stack == op.stack && k in Keys(db.updates[u].rows);
      var v :| v in db.updates[u].rows && db.updates[u].rows[v].key == Some(k);
    }
  }

  // --------------------------------------------------------------------- over runs

  lemma StepDooms(e: Env, states: seq<State>, steps: seq<Step>, p: nat, k: Key)
    requires EncodingFacts(e) && IsRun(e, states, steps) && p < |steps|
    ensures Referred(states[p].db, k) ==> Referred(states[p + 1].db, k) || k in states[p + 1].doomed
    ensures k in states[p + 1].doomed ==> k in states[p].doomed || Referred(states[p].db, k)
  {
    hide EncodingFacts, Ideal, Ready, Initial, After, Plan, AllRowsOk, ActiveOk, AllVersionsOk, BaseIsGiven, MayRequest;
    TablesChangeByCommits(e, states, steps, p);
    assert states[p + 1] == Next(e, states[p], steps[p]);
    if steps[p].Commit? {
      var op, at, db := states[p].txs[steps[p].id].op, states[p].txs[steps[p].id].prepared.value.at, states[p].db;
      if Referred(db, k) {
        var u, v :| u in db.updates && v in db.updates[u].rows && db.updates[u].rows[v].key == Some(k);
        RequestDooms(e, op, at, db, k, u, v);
      }
      if k in Ideal(e, op, at, db).value.dooms { DoomsWereReferred(e, op, at, db, k); }
    }
  }

  ghost predicate WasReferred(states: seq<State>, j: nat, k: Key) {
    exists i: nat :: i < j && i < |states| && Referred(states[i].db, k)
  }

  /**
   * In every state of every run a key is left to be deleted exactly when some committed row has
   * referred to it before and none does now: nothing is lost and nothing in use is deleted.
   */
  lemma {:induction false} DoomedExactly(e: Env, states: seq<State>, steps: seq<Step>, j: nat, k: Key)
    requires EncodingFacts(e) && IsRun(e, states, steps) && j < |states|
    ensures k in states[j].doomed <==> WasReferred(states, j, k) && !Referred(states[j].db, k)
  {
    hide EncodingFacts, Enabled, Next, Referred;
    if j > 0 {
      var p := j - 1;
      DoomedExactly(e, states, steps, p, k);
      StepDooms(e, states, steps, p, k);
      if k in states[p].doomed { DoomedForever(e, states, steps, p, j, k); }
      if k in states[j].doomed { DeletesHitNoReferredKey(e, states, steps, j, j, k); }
    }
  }

  // --------------------------------------------------------------------- what is kept where

  /** The baseline's text is in the blob store exactly when its encoding is large, and then under its number. */
  predicate BaseSized(e: Env, u: UpdateId, rows: map<nat, Row>) {
    DELTA_BASE_VERSION in rows && rows[DELTA_BASE_VERSION].Base? ==>
      var r := rows[DELTA_BASE_VERSION];
      r.key == if |e.encode(r.text)| > e.blobThreshold then Some(BaseKey(u, r.number)) else None
  }

  /** So is the document of a full checkpoint, by the length of its text. */
  predicate DocSized(e: Env, u: UpdateId, rows: map<nat, Row>, v: nat) {
    v in rows && rows[v].Full? ==>
      rows[v].key == if CodeUnits(e.serialize(rows[v].doc)) > e.blobThreshold then Some(FullKey(u, v)) else None
  }

  lemma RowRequestSizes(e: Env, op: Op, row: UpdateRow, at: Time, base: Baseline)
    requires (OnRow(op) || OnRowAndStack(op)) && Numbered(row.rows) && PlanRow(e, op, row, at, base).Success?
    requires BaseSized(e, op.update, row.rows) && op.update in PlanRow(e, op, row, at, base).value.rows
    ensures BaseSized(e, op.update, PlanRow(e, op, row, at, base).value.rows[op.update].rows)
  {
    hide Edited, CodeUnits, NextVersion, JournalStore.InsertRows, JournalStore.Flushed;
    NextVersionIsNew(row.rows);
  }

  lemma RequestSizes(e: Env, op: Op, at: Time, db: Db, u: UpdateId)
    requires AllRowsOk(db) && FreshId(db, op) && Ideal(e, op, at, db).Success?
    requires u in After(db, Ideal(e, op, at, db).value).updates && BaseSized(e, u, RowsBefore(db, u))
    ensures BaseSized(e, u, After(db, Ideal(e, op, at, db).value).updates[u].rows)
  {
    hide PlanRow, RowOk, BaseSized, SaveDoc, Versions, Latest, OrphanKeys, Populated, SweepChange, Moves;
    if OnRow(op) || OnRowAndStack(op) {
      if op.update in db.updates {
        var row := db.updates[op.update];
        NumberedRow(db, op.update);
        RowRequestMoves(e, op, row, at, GivenBaseline(row.rows));
        if u == op.update && u in Ideal(e, op, at, db).value.rows {
          RowRequestSizes(e, op, row, at, GivenBaseline(row.rows));
        }
      } else {
        MissingChangesNothing(e, op, at, db);
      }
    } else {
      WholeRequestKeepsContents(e, op, at, db, u);
      NoBaseIsSized(e, u, After(db, Ideal(e, op, at, db).value).updates[u].rows);
    }
  }

  lemma NoBaseIsSized(e: Env, u: UpdateId, rows: map<nat, Row>)
    ensures DELTA_BASE_VERSION !in rows ==> BaseSized(e, u, rows)
  {
  }

  /** In every state of every run exactly the large texts are in the blob store, under the key of version or number. */
  lemma {:induction false} LargeOnesAreBlobs(
      e: Env, states: seq<State>, steps: seq<Step>, i: nat, u: UpdateId, v: nat)
    requires EncodingFacts(e) && IsRun(e, states, steps) && i < |states| && u in states[i].db.updates
    ensures BaseSized(e, u, states[i].db.updates[u].rows) && DocSized(e, u, states[i].db.updates[u].rows, v)
  {
    hide EncodingFacts, Enabled, Next, BaseSized, Ideal, After, Ready, AllRowsOk, ActiveOk, AllVersionsOk,
      Adds, CodeUnits;
    NothingAtFirst(e, states, steps, u);
    var p := i - 1;
    NoBaseIsSized(e, u, map[]);
    if u in states[p].db.updates { LargeOnesAreBlobs(e, states, steps, p, u, v); }
    TablesChangeByCommits(e, states, steps, p);
    if steps[p].Commit? {
      var tx := states[p].txs[steps[p].id];
      RequestSizes(e, tx.op, tx.prepared.value.at, states[p].db, u);
    }
    if v in states[i].db.updates[u].rows && states[i].db.updates[u].rows[v].Full? {
      AddedIsSized(e, states, steps, i, u, v);
    }
  }

  lemma AddedIsSized(e: Env, states: seq<State>, steps: seq<Step>, i: nat, u: UpdateId, v: nat)
    requires EncodingFacts(e) && IsRun(e, states, steps) && i < |states| && u in states[i].db.updates
    requires v in states[i].db.updates[u].rows && states[i].db.updates[u].rows[v].Full?
    ensures DocSized(e, u, states[i].db.updates[u].rows, v)
  {
    hide EncodingFacts, Enabled, Next, Initial, CodeUnits;
    CandidateIsLeft(e, states, steps, i, u.stack, None, RowId(u, v));
    var r := states[i].db.updates[u].rows[v];
    LeftIsCandidate(e, states, steps, i, u.stack, None, RowId(u, v), r.doc, r.createdAt);
  }
}
