/**
 * Blob keys over concurrent runs: a key a committed row refers to always holds the bytes the row
 * stands for, and the keys left to be deleted are never referred to again.
 */
module BlobSafety {
  import opened Wrappers
  import opened UpdateModel
  import opened UpdatePlans
  import opened Lifecycle
  import opened Transactions
  import JournalStore

  /** Every row with a key finds its bytes. */
  ghost predicate Backed(e: Env, db: Db, blobs: map<Key, Bytes>) {
    forall u <- db.updates, v <- db.updates[u].rows :: RowBacked(e, db.updates[u].rows[v], blobs)
  }

  predicate RowBacked(e: Env, r: Row, blobs: map<Key, Bytes>) {
    r.key.Some? ==> r.key.value in blobs && blobs[r.key.value] == BytesOf(e, r)
  }

  /** A row whose key no longer matters: deleted with its stack, ended without a baseline, or past it. */
  predicate PastBase(row: UpdateRow, number: nat) {
    if DELTA_BASE_VERSION in row.rows
    then row.rows[DELTA_BASE_VERSION].Base? && row.rows[DELTA_BASE_VERSION].number > number
    else Terminal(row.status)
  }

  predicate Dead(db: Db, gone: set<UpdateId>, k: Key) {
    || k.update in gone
    || (k.BaseKey? && k.update in db.updates && PastBase(db.updates[k.update], k.number))
  }

  // --------------------------------------------------------------------- what a change does to keys

  /** A key that may be put for a change of row `row`: its next version, or a baseline past the last one. */
  predicate PutFits(row: UpdateRow, k: Key) {
    match k
    case FullKey(_, v) => v !in row.rows
    case BaseKey(_, n) =>
      && row.status == Running
      && (DELTA_BASE_VERSION in row.rows ==>
            row.rows[DELTA_BASE_VERSION].Base? && row.rows[DELTA_BASE_VERSION].number < n)
  }

  /** Baseline numbers only grow, and a baseline is dropped only by an update that has ended. */
  predicate BaseAdvances(row: UpdateRow, row': UpdateRow) {
    && (DELTA_BASE_VERSION in row.rows && DELTA_BASE_VERSION in row'.rows ==>
          && (row.rows[DELTA_BASE_VERSION].Base? ==> row'.rows[DELTA_BASE_VERSION].Base?)
          && (row.rows[DELTA_BASE_VERSION].Base? ==>
                row.rows[DELTA_BASE_VERSION].number <= row'.rows[DELTA_BASE_VERSION].number))
    && (DELTA_BASE_VERSION in row.rows && DELTA_BASE_VERSION !in row'.rows ==> Terminal(row'.status))
    && (Terminal(row.status) ==>
          Terminal(row'.status) && (DELTA_BASE_VERSION in row'.rows ==> DELTA_BASE_VERSION in row.rows))
  }

  /** Each row of the new version is an old one or has its bytes among the puts. */
  predicate Covered(e: Env, rows: map<nat, Row>, row': UpdateRow, c: Change) {
    forall v <- row'.rows ::
      || (v in rows && rows[v] == row'.rows[v])
      || RowBacked(e, row'.rows[v], c.puts)
  }

  /** What a change of one update's row does to blob keys. */
  ghost predicate KeyEffect(e: Env, u: UpdateId, row: UpdateRow, c: Change) {
    && c.dropped.None?
    && (forall k <- c.puts :: k.update == u && u in c.rows && PutFits(row, k))
    && (forall w <- c.rows :: w == u)
    && (u in c.rows ==> Covered(e, row.rows, c.rows[u], c) && BaseAdvances(row, c.rows[u]))
    && (forall k <- c.dooms :: k.update == u && u in c.rows && k.BaseKey? && PastBase(c.rows[u], k.number))
  }

  lemma SaveDocKeys(e: Env, u: UpdateId, row: UpdateRow, old_: UpdateRow, doc: Doc, at: Time)
    requires Numbered(row.rows) && row.rows == old_.rows && row.status == old_.status
    ensures KeyEffect(e, u, old_, SaveDoc(e, u, row, doc, at))
  {
    NextVersionIsNew(row.rows);
  }

  lemma SaveDocAndBaseKeys(e: Env, u: UpdateId, row: UpdateRow, doc: Doc, number: nat, text: Text, at: Time)
    requires RowsOk(u, row.rows) && row.status == Running
    requires DELTA_BASE_VERSION in row.rows ==> row.rows[DELTA_BASE_VERSION].number < number
    ensures KeyEffect(e, u, row, SaveDocAndBase(e, u, row, doc, number, text, at))
  {
    hide CodeUnits, NextVersion;
    NextVersionIsNew(row.rows);
    var c := SaveDocAndBase(e, u, row, doc, number, text, at);
    var r, b := FullRow(e, u, NextVersion(row.rows), doc, at), BaseRow(e, u, number, text);
    assert RowBacked(e, r, c.puts) && RowBacked(e, b, c.puts);
    assert forall k <- c.puts :: k in Puts(e, r) || k in Puts(e, b);
  }

  lemma RowOpKeys(e: Env, op: Op, row: UpdateRow, at: Time)
    requires OnRow(op) && RowOk(op.update, row)
    requires PlanRow(e, op, row, at, GivenBaseline(row.rows)).Success?
    ensures KeyEffect(e, op.update, row, PlanRow(e, op, row, at, GivenBaseline(row.rows)).value)
  {
    hide SaveDoc, SaveDocAndBase, EventsOk, RowsOk, KeyEffect, Edited;
    var c := PlanRow(e, op, row, at, GivenBaseline(row.rows)).value;
    RowsOkParts(op.update, row.rows);
    match op {
      case Patch(u, doc) => SaveDocKeys(e, u, row, row, doc, at);
      case Verbatim(u, number, text) =>
        if c == NO_CHANGE { NoChangeKeys(e, u, row); }
        else { SaveDocAndBaseKeys(e, u, row, e.parse(text).value, number, text, at); }
      case Delta(u, number, edits, expected) =>
        if c == NO_CHANGE { NoChangeKeys(e, u, row); }
        else {
          var text := Edited(e, GivenBaseline(row.rows).text, edits, expected).value;
          SaveDocAndBaseKeys(e, u, row, e.parse(text).value, number, text, at);
        }
      case Journal(u, batch, doc) => JournalKeys(e, op, row, at);
      case Renew(u, _, _, _) => SameRowsKeys(e, u, row, c.rows[u]);
    }
  }

  lemma RowsOkParts(u: UpdateId, rows: map<nat, Row>)
    requires RowsOk(u, rows)
    ensures Numbered(rows)
  {
  }

  lemma NoChangeKeys(e: Env, u: UpdateId, row: UpdateRow)
    ensures KeyEffect(e, u, row, NO_CHANGE)
  {
  }

  lemma SameRowsKeys(e: Env, u: UpdateId, row: UpdateRow, row': UpdateRow)
    requires row'.rows == row.rows && (Terminal(row.status) ==> Terminal(row'.status))
    ensures KeyEffect(e, u, row, NO_CHANGE.(rows := map[u := row']))
  {
  }

  lemma JournalKeys(e: Env, op: Op, row: UpdateRow, at: Time)
    requires op.Journal? && RowOk(op.update, row) && PlanJournal(e, op.update, row, op.batch, op.base, at).Success?
    ensures KeyEffect(e, op.update, row, PlanJournal(e, op.update, row, op.batch, op.base, at).value)
  {
    hide JournalStore.InsertRows, JournalStore.Flushed, SaveDoc, KeyEffect, RowsOk;
    var u := op.update;
    RowsOkParts(u, row.rows);
    if op.batch == [] {
      NoChangeKeys(e, u, row);
    } else {
      var row' := row.(journal := JournalStore.InsertRows(row.journal, op.batch));
      SameRowsKeys(e, u, row, row');
      SaveDocKeys(e, u, row', row, JournalStore.Flushed(op.base, row'.journal), at);
    }
  }

  lemma LifecycleOpKeys(e: Env, op: Op, row: UpdateRow, at: Time, base: Baseline)
    requires OnRowAndStack(op) && RowOk(op.update, row) && PlanRow(e, op, row, at, base).Success?
    ensures KeyEffect(e, op.update, row, PlanRow(e, op, row, at, base).value)
  {
    hide EventsOk;
  }

  /** What any accepted request does to blob keys. */
  ghost predicate ChangeKeys(e: Env, db: Db, c: Change) {
    if c.dropped.Some? then
      c.puts == map[] && forall k <- c.dooms :: k.update in db.updates && k.update.stack == c.dropped.value
    else
      && (forall k <- c.puts :: k.update in c.rows && PutAllowed(db, k))
      && (forall u <- c.rows :: NewRowAllowed(e, db, u, c))
      && (forall k <- c.dooms :: k.BaseKey? && k.update in c.rows && PastBase(c.rows[k.update], k.number))
  }

  predicate PutAllowed(db: Db, k: Key) {
    if k.update in db.updates then PutFits(db.updates[k.update], k) else k.FullKey?
  }

  predicate NewRowAllowed(e: Env, db: Db, u: UpdateId, c: Change)
    requires u in c.rows
  {
    if u in db.updates
    then Covered(e, db.updates[u].rows, c.rows[u], c) && BaseAdvances(db.updates[u], c.rows[u])
    else Covered(e, map[], c.rows[u], c)
  }

  lemma KeyEffectIsAllowed(e: Env, db: Db, u: UpdateId, c: Change)
    requires u in db.updates && KeyEffect(e, u, db.updates[u], c)
    ensures ChangeKeys(e, db, c)
  {
    hide Covered, BaseAdvances, PastBase, PutFits;
  }

  lemma RequestKeys(e: Env, op: Op, at: Time, db: Db)
    requires DbOk(db) && FreshId(db, op) && Ideal(e, op, at, db).Success?
    ensures ChangeKeys(e, db, Ideal(e, op, at, db).value)
  {
    hide PlanRow, KeyEffect, ChangeKeys, RowOk, ActiveOk, AllVersionsOk;
    var c := Ideal(e, op, at, db).value;
    if OnRow(op) || OnRowAndStack(op) {
      if op.update in db.updates {
        var row := db.updates[op.update];
        if OnRow(op) { RowOpKeys(e, op, row, at); } else { LifecycleOpKeys(e, op, row, at, GivenBaseline(row.rows)); }
        KeyEffectIsAllowed(e, db, op.update, c);
      } else {
        NothingIsAllowed(e, db);
      }
    } else if op.Sweep? {
      SweepIsAllowed(e, db, op);
    } else if op.Delete? {
      DeleteIsAllowed(e, db, op);
    } else {
      NewIsAllowed(e, op, at, db);
    }
  }

  lemma NothingIsAllowed(e: Env, db: Db)
    ensures ChangeKeys(e, db, NO_CHANGE)
  {
  }

  lemma SweepIsAllowed(e: Env, db: Db, op: Op)
    requires op.Sweep? && DbOk(db)
    ensures ChangeKeys(e, db, SweepChange(e, db, op.stacks, op.chosen, op.readAt))
  {
    hide Expired, Stale, DbOk;
  }

  lemma DeleteIsAllowed(e: Env, db: Db, op: Op)
    requires op.Delete? && AllRowsOk(db) && PlanDelete(db, op.stack, op.force).Success?
    ensures ChangeKeys(e, db, PlanDelete(db, op.stack, op.force).value)
  {
    hide RowOk, Populated, ReferredElsewhere;
    forall k | k in StackKeys(db, op.stack) ensures k.update in db.updates && k.update.stack == op.stack {
      StackKeyOwner(db, op.stack, k);
    }
  }

  lemma StackKeyOwner(db: Db, s: StackId, k: Key)
    requires AllRowsOk(db) && k in StackKeys(db, s)
    ensures k.update.stack == s && k.update in db.updates
  {
    var u :| u in db.updates && u.stack == s && k in Keys(db.updates[u].rows);
    assert RowOk(u, db.updates[u]);
  }

  lemma NewIsAllowed(e: Env, op: Op, at: Time, db: Db)
    requires (op.AddStack? || op.Create? || op.ImportDoc?) && FreshId(db, op) && Ideal(e, op, at, db).Success?
    ensures ChangeKeys(e, db, Ideal(e, op, at, db).value)
  {
    hide Versions, Latest, CodeUnits;
  }

  // --------------------------------------------------------------------- keys over one commit

  lemma ReferredIsAlive(db: Db, gone: set<UpdateId>, u: UpdateId, v: nat)
    requires AllRowsOk(db) && u in db.updates && v in db.updates[u].rows && gone !! db.updates.Keys
    requires db.updates[u].rows[v].key.Some?
    ensures db.updates[u].rows[v].key.value.update == u && !Dead(db, gone, db.updates[u].rows[v].key.value)
  {
    assert RowOk(u, db.updates[u]);
  }

  lemma PutIsAlive(e: Env, db: Db, gone: set<UpdateId>, c: Change, k: Key)
    requires AllRowsOk(db) && ChangeKeys(e, db, c) && k in c.puts && k.update !in gone
    ensures !Dead(db, gone, k)
  {
    if k.update in db.updates { assert RowOk(k.update, db.updates[k.update]); }
  }

  /** No committed row refers to a key that is about to be put. */
  lemma PutIsUnused(e: Env, db: Db, c: Change, k: Key, u: UpdateId, v: nat)
    requires AllRowsOk(db) && ChangeKeys(e, db, c) && k in c.puts
    requires u in db.updates && v in db.updates[u].rows
    ensures db.updates[u].rows[v].key != Some(k)
  {
    assert RowOk(u, db.updates[u]);
    if k.update in db.updates { assert RowOk(k.update, db.updates[k.update]); }
  }

  lemma DeadStays(e: Env, db: Db, gone: set<UpdateId>, c: Change, k: Key)
    requires AllRowsOk(db) && ChangeKeys(e, db, c) && Dead(db, gone, k)
    ensures Dead(After(db, c), gone + Dropped(db, c), k)
  {
    hide Covered, RowsOk;
    if k.update in db.updates {
      assert RowOk(k.update, db.updates[k.update]);
      if k.update in c.rows { assert c.dropped.None? ==> NewRowAllowed(e, db, k.update, c); }
    }
  }

  lemma DoomedDies(e: Env, db: Db, gone: set<UpdateId>, c: Change, k: Key)
    requires ChangeKeys(e, db, c) && k in c.dooms
    ensures Dead(After(db, c), gone + Dropped(db, c), k)
  {
  }

  lemma CommitKeepsBacked(e: Env, db: Db, blobs: map<Key, Bytes>, c: Change)
    requires Backed(e, db, blobs) && ChangeKeys(e, db, c)
    requires forall k <- c.puts :: k in blobs && blobs[k] == c.puts[k]
    ensures Backed(e, After(db, c), blobs)
  {
    hide BytesOf, BaseAdvances, PastBase, PutAllowed;
    var db' := After(db, c);
    forall u <- db'.updates, v <- db'.updates[u].rows ensures RowBacked(e, db'.updates[u].rows[v], blobs) {
      if c.dropped.None? && u in c.rows {
        assert NewRowAllowed(e, db, u, c);
        if u in db.updates && v in db.updates[u].rows { assert RowBacked(e, db.updates[u].rows[v], blobs); }
      } else {
        assert RowBacked(e, db.updates[u].rows[v], blobs);
      }
    }
  }

  // --------------------------------------------------------------------- reading back

  /** A backed row reads back as exactly what it was given. */
  lemma RowReadsBack(e: Env, r: Row, blobs: map<Key, Bytes>)
    requires EncodingFacts(e) && RowBacked(e, r, blobs) && r.Full?
    ensures ReadDoc(e, r, blobs) == Some(r.doc)
  {
    if r.key.Some? {
      var text := e.serialize(r.doc);
      assert NoMark(text) && e.parse(text) == Some(r.doc);
      assert e.decode(e.encode(text)) == Some(Unmarked(text));
    }
  }

  lemma BaselineReadsBack(e: Env, u: UpdateId, rows: map<nat, Row>, blobs: map<Key, Bytes>)
    requires EncodingFacts(e) && RowsOk(u, rows)
    requires DELTA_BASE_VERSION in rows ==> RowBacked(e, rows[DELTA_BASE_VERSION], blobs)
    ensures ReadBaseline(e, rows, blobs) == GivenBaseline(rows)
  {
    if DELTA_BASE_VERSION in rows && rows[DELTA_BASE_VERSION].Base? {
      var text := rows[DELTA_BASE_VERSION].text;
      assert e.decode(e.encode(text)) == Some(Unmarked(text));
    }
  }

  /** So a plan computed from the blob store is the plan on what the rows were given. */
  lemma PlanIsIdeal(e: Env, op: Op, at: Time, db: Db, blobs: map<Key, Bytes>)
    requires EncodingFacts(e) && AllRowsOk(db) && Backed(e, db, blobs)
    ensures Plan(e, op, at, db, blobs) == Ideal(e, op, at, db)
  {
    hide PlanWith, EncodingFacts;
    if (OnRow(op) || OnRowAndStack(op)) && op.update in db.updates {
      assert RowOk(op.update, db.updates[op.update]);
      BaselineReadsBack(e, op.update, db.updates[op.update].rows, blobs);
    }
  }
}
