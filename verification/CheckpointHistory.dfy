/**
 * The full checkpoints of every state, told from the saves committed before it: which save added
 * each, and which of those left is the newest. The base of a flush, the head an import is checked
 * against and the checkpoint that guards a deletion are all that newest one.
 */
module CheckpointHistory {
  import opened Wrappers
  import opened UpdateModel
  import opened UpdatePlans
  import opened Lifecycle
  import opened Transactions
  import opened BlobSafety
  import opened Runs
  import opened RunTheorems
  import opened LifecycleRuns
  import opened BaseCache
  import JournalReplay
  import JournalStore

  // --------------------------------------------------------------------- one request

  /** The request saves the document for `w`, whose row is `row` afterwards. */
  ghost predicate Saves(e: Env, op: Op, w: UpdateId, row: UpdateRow, d: Doc) {
    match op
    case Patch(u, doc) => u == w && d == doc
    case Verbatim(u, _, text) => u == w && e.parse(text) == Some(d)
    case Delta(u, number, _, _) =>
      && u == w && DELTA_BASE_VERSION in row.rows && row.rows[DELTA_BASE_VERSION].Base?
      && row.rows[DELTA_BASE_VERSION].number == number && e.parse(row.rows[DELTA_BASE_VERSION].text) == Some(d)
    case Journal(u, batch, base) =>
      && u == w && (exists posted <- batch :: !posted.entry.elideWrite)
      && d == JournalReplay.Replayed(base, JournalStore.InOrder(row.journal))
    case ImportDoc(_, doc, _, id) => id == w && d == doc
    case _ => false
  }

  /** A checkpoint row as a save writes it: in the blob store if it is large, else in the row. */
  function SavedRow(e: Env, w: UpdateId, v: nat, d: Doc, at: Time): Row {
    Full(d, if CodeUnits(e.serialize(d)) > e.blobThreshold then Some(FullKey(w, v)) else None, at)
  }

  ghost predicate NewSave(e: Env, op: Op, at: Time, rows: map<nat, Row>, w: UpdateId, row': UpdateRow, v: nat) {
    && v in row'.rows && row'.rows[v].Full? && v !in rows
    && row'.rows[v] == SavedRow(e, w, v, row'.rows[v].doc, at)
    && Saves(e, op, w, row', row'.rows[v].doc)
  }

  /** The full checkpoints of a row afterwards are those before and at most one new save. */
  ghost predicate FullRowsAfter(e: Env, op: Op, at: Time, rows: map<nat, Row>, w: UpdateId, row': UpdateRow) {
    && (forall v <- rows :: rows[v].Full? ==> v in row'.rows && row'.rows[v] == rows[v])
    && (forall v <- row'.rows :: row'.rows[v].Full? ==>
          (v in rows && row'.rows[v] == rows[v]) || NewSave(e, op, at, rows, w, row', v))
  }

  lemma SaveDocFull(e: Env, op: Op, at: Time, row: UpdateRow, now: UpdateRow, w: UpdateId, d: Doc)
    requires Numbered(row.rows) && now.rows == row.rows
    requires Saves(e, op, w, SaveDoc(e, w, now, d, at).rows[w], d)
    ensures FullRowsAfter(e, op, at, row.rows, w, SaveDoc(e, w, now, d, at).rows[w])
  {
    hide CodeUnits, NextVersion, Saves;
    NextVersionIsNew(row.rows);
  }

  lemma SaveBothFull(e: Env, op: Op, at: Time, row: UpdateRow, w: UpdateId, d: Doc, number: nat, text: Text)
    requires Numbered(row.rows)
    requires Saves(e, op, w, SaveDocAndBase(e, w, row, d, number, text, at).rows[w], d)
    ensures FullRowsAfter(e, op, at, row.rows, w, SaveDocAndBase(e, w, row, d, number, text, at).rows[w])
  {
    hide CodeUnits, NextVersion, Saves;
    NextVersionIsNew(row.rows);
  }

  lemma SameRowsFull(e: Env, op: Op, at: Time, rows: map<nat, Row>, w: UpdateId, row': UpdateRow)
    requires Numbered(rows) && (row'.rows == rows || row'.rows == rows - {DELTA_BASE_VERSION})
    ensures FullRowsAfter(e, op, at, rows, w, row')
  {
  }

  lemma RowRequestFull(e: Env, op: Op, row: UpdateRow, at: Time, base: Baseline)
    requires (OnRow(op) || OnRowAndStack(op)) && Numbered(row.rows) && PlanRow(e, op, row, at, base).Success?
    requires op.update in PlanRow(e, op, row, at, base).value.rows
    ensures FullRowsAfter(e, op, at, row.rows, op.update, PlanRow(e, op, row, at, base).value.rows[op.update])
  {
    hide SaveDoc, SaveDocAndBase, Edited, FullRowsAfter, JournalStore.InsertRows, JournalReplay.Replayed,
      JournalStore.InOrder, Saves;
    var u, c := op.update, PlanRow(e, op, row, at, base).value;
    match op {
      case Patch(_, doc) =>
        SavesGiven(e, op, row, at, doc);
        SaveDocFull(e, op, at, row, row, u, doc);
      case Verbatim(_, number, text) =>
        SavesBoth(e, op, row, at, e.parse(text).value, number, text);
        SaveBothFull(e, op, at, row, u, e.parse(text).value, number, text);
      case Delta(_, number, edits, expected) =>
        var text := Edited(e, base.text, edits, expected).value;
        SavesBoth(e, op, row, at, e.parse(text).value, number, text);
        SaveBothFull(e, op, at, row, u, e.parse(text).value, number, text);
      case Journal(_, batch, given) =>
        var row' := row.(journal := JournalStore.InsertRows(row.journal, batch));
        if JournalStore.HasNonElided(batch) {
          SavesFlush(e, op, row', at);
          SaveDocFull(e, op, at, row, row', u, JournalStore.Flushed(given, row'.journal));
        } else {
          SameRowsFull(e, op, at, row.rows, u, c.rows[u]);
        }
      case _ => SameRowsFull(e, op, at, row.rows, u, c.rows[u]);
    }
  }

  lemma SavesGiven(e: Env, op: Op, row: UpdateRow, at: Time, doc: Doc)
    requires op.Patch? && op.doc == doc
    ensures Saves(e, op, op.update, SaveDoc(e, op.update, row, doc, at).rows[op.update], doc)
  {
  }

  lemma SavesBoth(e: Env, op: Op, row: UpdateRow, at: Time, doc: Doc, number: nat, text: Text)
    requires (op.Verbatim? && op.text == text) || op.Delta?
    requires op.number == number && e.parse(text) == Some(doc)
    ensures Saves(e, op, op.update, SaveDocAndBase(e, op.update, row, doc, number, text, at).rows[op.update], doc)
  {
    hide CodeUnits, NextVersion;
  }

  lemma SavesFlush(e: Env, op: Op, row: UpdateRow, at: Time)
    requires op.Journal? && JournalStore.HasNonElided(op.batch)
    ensures var doc := JournalStore.Flushed(op.base, row.journal);
            Saves(e, op, op.update, SaveDoc(e, op.update, row, doc, at).rows[op.update], doc)
  {
    hide CodeUnits, NextVersion, JournalReplay.Replayed, JournalStore.InOrder;
  }

  lemma ImportFull(e: Env, op: Op, at: Time, db: Db)
    requires op.ImportDoc? && Ideal(e, op, at, db).Success?
    ensures var after := After(db, Ideal(e, op, at, db).value).updates;
            op.id in after && FullRowsAfter(e, op, at, map[], op.id, after[op.id])
  {
    hide SaveDoc, FullRowsAfter, Latest, Versions;
    var row := NewRow(Import, Succeeded, MaxOrZero(Versions(db, op.stack, false)) + 1, at);
    SavesImport(e, op, row, at);
    SaveDocFull(e, op, at, row, row, op.id, op.doc);
    NewRowOnly(e, op.id, row, op.doc, at);
  }

  lemma SavesImport(e: Env, op: Op, row: UpdateRow, at: Time)
    requires op.ImportDoc?
    ensures Saves(e, op, op.id, SaveDoc(e, op.id, row, op.doc, at).rows[op.id], op.doc)
  {
  }

  lemma NewRowOnly(e: Env, u: UpdateId, row: UpdateRow, doc: Doc, at: Time)
    ensures SaveDoc(e, u, row, doc, at).rows.Keys == {u} && SaveDoc(e, u, row, doc, at).dropped.None?
  {
    hide CodeUnits, NextVersion;
  }

  function RowsBefore(db: Db, w: UpdateId): map<nat, Row> {
    if w in db.updates then db.updates[w].rows else map[]
  }

  lemma RequestFull(e: Env, op: Op, at: Time, db: Db, w: UpdateId)
    requires AllRowsOk(db) && FreshId(db, op) && Ideal(e, op, at, db).Success?
    requires w in After(db, Ideal(e, op, at, db).value).updates
    ensures FullRowsAfter(e, op, at, RowsBefore(db, w), w, After(db, Ideal(e, op, at, db).value).updates[w])
  {
    hide PlanRow, FullRowsAfter, RowOk;
    var row' := After(db, Ideal(e, op, at, db).value).updates[w];
    if w in db.updates { NumberedRow(db, w); }
    if OnRow(op) || OnRowAndStack(op) {
      if op.update in db.updates {
        var row := db.updates[op.update];
        NumberedRow(db, op.update);
        RowRequestMoves(e, op, row, at, GivenBaseline(row.rows));
        if op.update in Ideal(e, op, at, db).value.rows {
          RowRequestFull(e, op, row, at, GivenBaseline(row.rows));
        }
      } else {
        MissingChangesNothing(e, op, at, db);
      }
      if w != op.update || row' == db.updates[w] { SameRowsFull(e, op, at, RowsBefore(db, w), w, row'); }
    } else {
      if op.ImportDoc? { ImportFull(e, op, at, db); }
      if !(op.ImportDoc? && op.id == w) { WholeRequestRows(e, op, at, db, w); }
      if row'.rows == RowsBefore(db, w) { SameRowsFull(e, op, at, RowsBefore(db, w), w, row'); }
    }
  }

  lemma NumberedRow(db: Db, w: UpdateId)
    requires AllRowsOk(db) && w in db.updates
    ensures Numbered(db.updates[w].rows)
  {
    assert RowOk(w, db.updates[w]);
  }

  lemma WholeRequestRows(e: Env, op: Op, at: Time, db: Db, w: UpdateId)
    requires !OnRow(op) && !OnRowAndStack(op) && FreshId(db, op) && Ideal(e, op, at, db).Success?
    requires w in After(db, Ideal(e, op, at, db).value).updates && !(op.ImportDoc? && op.id == w)
    ensures After(db, Ideal(e, op, at, db).value).updates[w].rows == RowsBefore(db, w)
  {
    hide Versions, SaveDoc, Latest, OrphanKeys, Populated, Expired, Stale;
    if op.ImportDoc? {
      NewRowOnly(e, op.id, NewRow(Import, Succeeded, MaxOrZero(Versions(db, op.stack, false)) + 1, at), op.doc, at);
    }
  }

  // --------------------------------------------------------------------- over runs

  /** Step `j` commits a save, decided at `at`, that adds the document as checkpoint `v` of `w`. */
  ghost predicate Adds(
      e: Env, states: seq<State>, steps: seq<Step>, j: nat, w: UpdateId, v: nat, d: Doc, at: Time)
  {
    && j + 1 < |states| && w in states[j + 1].db.updates
    && v in states[j + 1].db.updates[w].rows && v !in RowsBefore(states[j].db, w)
    && states[j + 1].db.updates[w].rows[v] == SavedRow(e, w, v, d, at)
    && exists op :: CommitsAt(states, steps, j, op, at) && Saves(e, op, w, states[j + 1].db.updates[w], d)
  }

  ghost predicate HoldsFull(e: Env, s: State, w: UpdateId, v: nat, d: Doc, at: Time) {
    && w in s.db.updates && v in s.db.updates[w].rows && s.db.updates[w].rows[v] == SavedRow(e, w, v, d, at)
  }

  /** A step leaves the full checkpoints of what stays as they are, and a new one is a save's. */
  lemma StepFull(e: Env, states: seq<State>, steps: seq<Step>, p: nat, w: UpdateId, v: nat)
    requires EncodingFacts(e) && IsRun(e, states, steps) && p < |steps| && w in states[p + 1].db.updates
    ensures v in RowsBefore(states[p].db, w) && RowsBefore(states[p].db, w)[v].Full? ==>
              && v in states[p + 1].db.updates[w].rows
              && states[p + 1].db.updates[w].rows[v] == RowsBefore(states[p].db, w)[v]
    ensures v in states[p + 1].db.updates[w].rows && states[p + 1].db.updates[w].rows[v].Full? ==>
              var r := states[p + 1].db.updates[w].rows[v];
              || (v in RowsBefore(states[p].db, w) && RowsBefore(states[p].db, w)[v] == r)
              || Adds(e, states, steps, p, w, v, r.doc, r.createdAt)
  {
    hide EncodingFacts, Ideal, Ready, Enabled, Next, Initial, After, Saves, SavedRow, ActiveOk, AllVersionsOk,
      AllRowsOk;
    TablesChangeByCommits(e, states, steps, p);
    if steps[p].Commit? {
      var tx := states[p].txs[steps[p].id];
      RequestFull(e, tx.op, tx.prepared.value.at, states[p].db, w);
      SavedRowTime(e, w, v, tx.prepared.value.at);
      assert CommitsAt(states, steps, p, tx.op, tx.prepared.value.at);
    }
  }

  lemma SavedRowTime(e: Env, w: UpdateId, v: nat, at: Time)
    ensures forall d: Doc :: SavedRow(e, w, v, d, at).Full? && SavedRow(e, w, v, d, at).createdAt == at
  {
  }

  /** Every full checkpoint there is was added by a save. */
  lemma {:induction false} FullIsAdded(e: Env, states: seq<State>, steps: seq<Step>, i: nat, w: UpdateId, v: nat)
    requires EncodingFacts(e) && IsRun(e, states, steps) && i < |states| && w in states[i].db.updates
    requires v in states[i].db.updates[w].rows && states[i].db.updates[w].rows[v].Full?
    ensures var r := states[i].db.updates[w].rows[v];
            exists j: nat :: j < i && Adds(e, states, steps, j, w, v, r.doc, r.createdAt)
  {
    hide EncodingFacts, Enabled, Next, Adds;
    NothingAtFirst(e, states, steps, w);
    var p := i - 1;
    StepFull(e, states, steps, p, w, v);
    if v in RowsBefore(states[p].db, w) && RowsBefore(states[p].db, w)[v] == states[i].db.updates[w].rows[v] {
      FullIsAdded(e, states, steps, p, w, v);
    }
  }

  /** A checkpoint once added stays as it was added until its stack is deleted. */
  lemma {:induction false} AddedStays(
      e: Env, states: seq<State>, steps: seq<Step>, j: nat, i: nat, w: UpdateId, v: nat, d: Doc, at: Time)
    requires EncodingFacts(e) && IsRun(e, states, steps) && j < i < |states|
    requires Adds(e, states, steps, j, w, v, d, at) && w in states[i].db.updates
    ensures HoldsFull(e, states[i], w, v, d, at)
  {
    hide EncodingFacts, Enabled, Next, Initial, Saves, SavedRow;
    SavedRowTime(e, w, v, at);
    if j + 1 < i {
      var p := i - 1;
      ThereBefore(e, states, steps, j + 1, p, w);
      AddedStays(e, states, steps, j, p, w, v, d, at);
      StepFull(e, states, steps, p, w, v);
    }
  }

  /** The save before state `i` whose checkpoint, of some update of the stack, is still there. */
  ghost predicate Left(
      e: Env, states: seq<State>, steps: seq<Step>, i: nat, s: StackId, except: Option<UpdateId>,
      r: RowId, d: Doc, at: Time)
    requires i < |states|
  {
    && r.update.stack == s && Some(r.update) != except && r.update in states[i].db.updates
    && exists j: nat :: j < i && Adds(e, states, steps, j, r.update, r.version, d, at)
  }

  /** Of the checkpoints left the one added last, by the time of its save. */
  ghost predicate Newest(
      e: Env, states: seq<State>, steps: seq<Step>, i: nat, s: StackId, except: Option<UpdateId>,
      r: RowId, d: Doc, at: Time)
    requires i < |states|
  {
    && Left(e, states, steps, i, s, except, r, d, at)
    && forall o: RowId, other: Doc, saved: Time ::
         Left(e, states, steps, i, s, except, o, other, saved) ==> saved <= at
  }

  lemma LeftIsCandidate(
      e: Env, states: seq<State>, steps: seq<Step>, i: nat, s: StackId, except: Option<UpdateId>,
      r: RowId, d: Doc, at: Time)
    requires EncodingFacts(e) && IsRun(e, states, steps) && i < |states|
    ensures Left(e, states, steps, i, s, except, r, d, at) <==>
            && Candidate(states[i].db, s, except, r)
            && RowAt(states[i].db, r) == SavedRow(e, r.update, r.version, d, at)
  {
    hide EncodingFacts, Enabled, Next, Initial, Adds;
    if Left(e, states, steps, i, s, except, r, d, at) {
      var j: nat :| j < i && Adds(e, states, steps, j, r.update, r.version, d, at);
      AddedStays(e, states, steps, j, i, r.update, r.version, d, at);
    }
    if Candidate(states[i].db, s, except, r) {
      FullIsAdded(e, states, steps, i, r.update, r.version);
    }
  }

  lemma CandidateIsLeft(
      e: Env, states: seq<State>, steps: seq<Step>, i: nat, s: StackId, except: Option<UpdateId>, r: RowId)
    requires EncodingFacts(e) && IsRun(e, states, steps) && i < |states| && Candidate(states[i].db, s, except, r)
    ensures var row := RowAt(states[i].db, r);
            Left(e, states, steps, i, s, except, r, row.doc, row.createdAt)
  {
    hide EncodingFacts, Enabled, Next, Initial, Adds;
    FullIsAdded(e, states, steps, i, r.update, r.version);
  }

  /** What the queries for the latest checkpoint answer is the one saved last. */
  lemma LatestIsNewest(
      e: Env, states: seq<State>, steps: seq<Step>, i: nat, s: StackId, except: Option<UpdateId>,
      r: RowId, d: Doc, at: Time)
    requires EncodingFacts(e) && IsRun(e, states, steps) && i < |states|
    ensures Newest(e, states, steps, i, s, except, r, d, at) <==>
            && Latest(states[i].db, s, except, r)
            && RowAt(states[i].db, r) == SavedRow(e, r.update, r.version, d, at)
  {
    hide EncodingFacts, Initial, Enabled, Next, Left, CodeUnits;
    LeftIsCandidate(e, states, steps, i, s, except, r, d, at);
    if Newest(e, states, steps, i, s, except, r, d, at) {
      forall o: RowId | Candidate(states[i].db, s, except, o) ensures RowAt(states[i].db, o).createdAt <= at {
        CandidateIsLeft(e, states, steps, i, s, except, o);
      }
    }
    if Latest(states[i].db, s, except, r) && RowAt(states[i].db, r) == SavedRow(e, r.update, r.version, d, at) {
      forall o: RowId, other: Doc, saved: Time | Left(e, states, steps, i, s, except, o, other, saved)
        ensures saved <= at
      {
        LeftIsCandidate(e, states, steps, i, s, except, o, other, saved);
      }
    }
  }

  // --------------------------------------------------------------------- every save adds

  /** A request that saves a checkpoint when it is accepted, for this update. */
  ghost predicate IsSave(op: Op, w: UpdateId) {
    || ((op.Patch? || op.Verbatim? || op.Delta?) && op.update == w)
    || (op.Journal? && op.update == w && exists posted <- op.batch :: !posted.entry.elideWrite)
    || (op.ImportDoc? && op.id == w)
  }

  /** The save repeats the number of the retained baseline. */
  predicate Repeats(db: Db, op: Op) {
    && (op.Verbatim? || op.Delta?) && op.update in db.updates
    && var rows := db.updates[op.update].rows;
    && DELTA_BASE_VERSION in rows && rows[DELTA_BASE_VERSION].Base? && rows[DELTA_BASE_VERSION].number == op.number
  }

  lemma RowSaveAdds(e: Env, op: Op, at: Time, row: UpdateRow, base: Baseline)
    requires OnRow(op) && IsSave(op, op.update) && Numbered(row.rows) && PlanRow(e, op, row, at, base).Success?
    requires (op.Verbatim? || op.Delta?) && base.Retained? ==> base.number != op.number
    ensures var c := PlanRow(e, op, row, at, base).value;
            && c.dropped.None? && op.update in c.rows && NextVersion(row.rows) in c.rows[op.update].rows
            && c.rows[op.update].rows[NextVersion(row.rows)].Full? && NextVersion(row.rows) !in row.rows
  {
    hide Edited, CodeUnits, NextVersion, JournalStore.InsertRows, JournalStore.Flushed;
    NextVersionIsNew(row.rows);
  }

  lemma RequestAdds(e: Env, op: Op, at: Time, db: Db, w: UpdateId) returns (v: nat)
    requires AllRowsOk(db) && FreshId(db, op) && Ideal(e, op, at, db).Success? && IsSave(op, w) && !Repeats(db, op)
    ensures var after := After(db, Ideal(e, op, at, db).value).updates;
            && w in after && v in after[w].rows && after[w].rows[v].Full? && v !in RowsBefore(db, w)
  {
    hide PlanRow, RowOk, SaveDoc, Versions, Latest;
    if op.ImportDoc? {
      v := NextVersion(map[]);
      ImportAdds(e, op, at, db);
    } else {
      var row := db.updates[op.update];
      v := NextVersion(row.rows);
      NumberedRow(db, op.update);
      RowSaveAdds(e, op, at, row, GivenBaseline(row.rows));
    }
  }

  lemma ImportAdds(e: Env, op: Op, at: Time, db: Db)
    requires op.ImportDoc? && FreshId(db, op) && Ideal(e, op, at, db).Success?
    ensures var after := After(db, Ideal(e, op, at, db).value).updates;
            && op.id in after && NextVersion(map[]) in after[op.id].rows && after[op.id].rows[NextVersion(map[])].Full?
  {
    hide NextVersion, CodeUnits, Versions, Latest;
  }

  /** Every committed save adds a checkpoint, but for a repetition of the number retained. */
  lemma SavesAdd(e: Env, states: seq<State>, steps: seq<Step>, i: nat, op: Op, at: Time, w: UpdateId)
    requires EncodingFacts(e) && IsRun(e, states, steps) && CommitsAt(states, steps, i, op, at)
    requires IsSave(op, w) && !Repeats(states[i].db, op)
    ensures exists v: nat, d: Doc, saved: Time :: Adds(e, states, steps, i, w, v, d, saved)
  {
    hide EncodingFacts, Ideal, Ready, Enabled, Next, Initial, After, Adds, IsSave, Repeats, ActiveOk, AllVersionsOk;
    TablesChangeByCommits(e, states, steps, i);
    var v := RequestAdds(e, op, at, states[i].db, w);
    StepFull(e, states, steps, i, w, v);
  }

  // --------------------------------------------------------------------- what the newest one decides

  ghost predicate AnyLeft(
      e: Env, states: seq<State>, steps: seq<Step>, i: nat, s: StackId, except: Option<UpdateId>)
    requires i < |states|
  {
    exists r: RowId, d: Doc, at: Time :: Left(e, states, steps, i, s, except, r, d, at)
  }

  lemma AnyLeftIsCandidate(
      e: Env, states: seq<State>, steps: seq<Step>, i: nat, s: StackId, except: Option<UpdateId>)
    requires EncodingFacts(e) && IsRun(e, states, steps) && i < |states|
    ensures AnyLeft(e, states, steps, i, s, except) <==> exists r: RowId :: Candidate(states[i].db, s, except, r)
  {
    hide EncodingFacts, Initial, Enabled, Next, Left;
    if AnyLeft(e, states, steps, i, s, except) {
      var r: RowId, d: Doc, at: Time :| Left(e, states, steps, i, s, except, r, d, at);
      LeftIsCandidate(e, states, steps, i, s, except, r, d, at);
    }
    if r: RowId :| Candidate(states[i].db, s, except, r) {
      CandidateIsLeft(e, states, steps, i, s, except, r);
    }
  }

  lemma LatestWasSaved(
      e: Env, states: seq<State>, steps: seq<Step>, i: nat, s: StackId, except: Option<UpdateId>, r: RowId)
    requires EncodingFacts(e) && IsRun(e, states, steps) && i < |states| && Latest(states[i].db, s, except, r)
    ensures var row := RowAt(states[i].db, r);
            && Newest(e, states, steps, i, s, except, r, row.doc, row.createdAt)
            && row == SavedRow(e, r.update, r.version, row.doc, row.createdAt)
  {
    hide EncodingFacts, Initial, Enabled, Next, Left, CodeUnits;
    var row := RowAt(states[i].db, r);
    CandidateIsLeft(e, states, steps, i, s, except, r);
    LeftIsCandidate(e, states, steps, i, s, except, r, row.doc, row.createdAt);
    LatestIsNewest(e, states, steps, i, s, except, r, row.doc, row.createdAt);
  }

  /**
   * The base a flush is prepared with, cached or loaded, is the document that a save, a flush or an
   * import added to another update of the stack, and no save of one still there was later; when
   * none is left it is the empty deployment.
   */
  lemma FlushBaseIsNewest(e: Env, states: seq<State>, steps: seq<Step>, i: nat)
    requires EncodingFacts(e) && IsRun(e, states, steps) && i < |steps|
    requires steps[i].Prepare? && steps[i].id in states[i].txs && Flushes(states[i].txs[steps[i].id].op)
    ensures var op := states[i].txs[steps[i].id].op;
            var s, except := op.update.stack, Some(op.update);
            if AnyLeft(e, states, steps, i, s, except) then
              exists r: RowId, at: Time :: Newest(e, states, steps, i, s, except, r, op.base, at)
            else op.base.resources == Some([]) && op.base.pendingOperations == Some([])
                 && op.base.secretsProviders == Some("passphrase")
  {
    hide EncodingFacts, Initial, Enabled, Next, Newest, Inv, Loads, AnyLeft;
    var db, op := states[i].db, states[i].txs[steps[i].id].op;
    FlushStartsFromCurrentBase(e, states, steps, i);
    At(e, states, steps, i);
    InvBacked(e, states[i]);
    LoadsWhatWasGiven(e, db, states[i].blobs, op.update, op.base);
    AnyLeftIsCandidate(e, states, steps, i, op.update.stack, Some(op.update));
    if AnyLeft(e, states, steps, i, op.update.stack, Some(op.update)) {
      var r: RowId :| Latest(db, op.update.stack, Some(op.update), r) && RowAt(db, r).doc == op.base;
      LatestWasSaved(e, states, steps, i, op.update.stack, Some(op.update), r);
    }
  }

  lemma InvBacked(e: Env, s: State)
    requires Inv(e, s)
    ensures Backed(e, s.db, s.blobs)
  {
  }

  /** A committed import that expects a head expects the checkpoint saved last on the stack. */
  lemma ImportHeadIsNewest(
      e: Env, states: seq<State>, steps: seq<Step>, i: nat, s: StackId, doc: Doc, head: RowId, id: UpdateId, at: Time)
    requires EncodingFacts(e) && IsRun(e, states, steps)
    requires CommitsAt(states, steps, i, ImportDoc(s, doc, Some(head), id), at)
    ensures exists d: Doc, saved: Time :: Newest(e, states, steps, i, s, None, head, d, saved)
  {
    hide EncodingFacts, Initial, Enabled, Next, Newest, Latest, DbOk, Ready, After, SaveDoc;
    TablesChangeByCommits(e, states, steps, i);
    LatestWasSaved(e, states, steps, i, s, None, head);
  }

  /**
   * A stack is deleted without force only at rest, and only when nothing is left on it or a
   * checkpoint saved last is small and holds no resources.
   */
  lemma DeletionFindsNothing(e: Env, states: seq<State>, steps: seq<Step>, i: nat, s: StackId, at: Time)
    requires EncodingFacts(e) && IsRun(e, states, steps)
    requires CommitsAt(states, steps, i, Delete(s, false), at)
    ensures s in states[i].db.active && states[i].db.active[s].None?
    ensures AnyLeft(e, states, steps, i, s, None) ==>
      exists r: RowId, d: Doc, saved: Time :: Newest(e, states, steps, i, s, None, r, d, saved)
        && CodeUnits(e.serialize(d)) <= e.blobThreshold && (d.resources.None? || d.resources == Some([]))
  {
    hide EncodingFacts, Initial, Enabled, Next, Newest, DbOk, Ready, After, CodeUnits, AnyLeft, OrphanKeys;
    TablesChangeByCommits(e, states, steps, i);
    AnyLeftIsCandidate(e, states, steps, i, s, None);
    if AnyLeft(e, states, steps, i, s, None) {
      var db := states[i].db;
      var r: RowId :| Latest(db, s, None, r) && !HasResourcesIn(RowAt(db, r));
      LatestWasSaved(e, states, steps, i, s, None, r);
    }
  }
}
