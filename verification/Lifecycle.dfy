/**
 * The lifecycle of updates: what every accepted request keeps of the stack, update, checkpoint
 * and outbox rows.
 */
module Lifecycle {
  import opened Wrappers
  import opened UpdateModel
  import opened UpdatePlans
  import JournalStore

  // --------------------------------------------------------------------- one row

  predicate KeysNamed(u: UpdateId, rows: map<nat, Row>) {
    forall v <- rows :: rows[v].key.Some? ==>
      rows[v].key.value == if rows[v].Full? then FullKey(u, v) else BaseKey(u, rows[v].number)
  }

  /** Version 0 is the baseline's alone, and the full checkpoints are numbered 1..k. */
  predicate Numbered(rows: map<nat, Row>) {
    && (forall v <- rows :: rows[v].Base? <==> v == DELTA_BASE_VERSION)
    && (forall v <- rows :: v > 1 ==> v - 1 in rows)
  }

  predicate BaseUnmarked(rows: map<nat, Row>) {
    DELTA_BASE_VERSION in rows && rows[DELTA_BASE_VERSION].Base? ==> NoMark(rows[DELTA_BASE_VERSION].text)
  }

  predicate RowsOk(u: UpdateId, rows: map<nat, Row>) {
    KeysNamed(u, rows) && Numbered(rows) && BaseUnmarked(rows)
  }

  /** A lease is held exactly while an update runs, and nothing is stored before it starts. */
  predicate StatusOk(row: UpdateRow) {
    && row.status != Requested
    && (row.status == Running <==> row.token.Some?)
    && (row.status == Running <==> row.lease.Some?)
    && (row.status == Running || row.status == Failed ==> row.startedAt.Some?)
    && (row.status == NotStarted ==> row.startedAt.None? && row.rows == map[] && row.journal == map[])
  }

  /** The outbox of an update: at most one start, then at most one end, the one it ended with. */
  predicate EventsOk(row: UpdateRow) {
    if row.startedAt.Some? then row.events == [Started] + (if Terminal(row.status) then [Ended(row.status)] else [])
    else row.events == [] || (row.status == Cancelled && row.events == [Ended(Cancelled)])
  }

  predicate RowOk(u: UpdateId, row: UpdateRow) {
    StatusOk(row) && EventsOk(row) && RowsOk(u, row.rows)
  }

  // --------------------------------------------------------------------- all tables

  ghost predicate Owned(db: Db) {
    forall u <- db.updates :: u.stack in db.active
  }

  /** `active` names exactly the one update of the stack that has not ended. */
  ghost predicate ActiveOk(db: Db) {
    && (forall u <- db.updates ::
          !Terminal(db.updates[u].status) ==> u.stack in db.active && db.active[u.stack] == Some(u))
    && (forall s <- db.active :: db.active[s].Some? ==>
          && db.active[s].value.stack == s
          && db.active[s].value in db.updates
          && !Terminal(db.updates[db.active[s].value].status))
  }

  ghost predicate AllRowsOk(db: Db) {
    forall u <- db.updates :: RowOk(u, db.updates[u])
  }

  predicate Numbers(db: Db, u: UpdateId) {
    u in db.updates && db.updates[u].kind != Preview
  }

  /** The non-preview versions of a stack are 1..n, each taken once. */
  ghost predicate VersionsOk(db: Db, s: StackId) {
    && (forall u, w ::
          (Numbers(db, u) && Numbers(db, w) && u.stack == s == w.stack
           && db.updates[u].version == db.updates[w].version)
          ==> u == w)
    && (forall v: nat :: v in Versions(db, s, false) <==> 1 <= v <= MaxOrZero(Versions(db, s, false)))
  }

  ghost predicate AllVersionsOk(db: Db) {
    forall s: StackId :: VersionsOk(db, s)
  }

  ghost predicate DbOk(db: Db) {
    Owned(db) && ActiveOk(db) && AllRowsOk(db) && AllVersionsOk(db)
  }

  /** New ids are new, and belong to the stack they are created for. */
  predicate FreshId(db: Db, op: Op) {
    op.Create? || op.ImportDoc? ==> op.id !in db.updates && op.id.stack == op.stack
  }

  // --------------------------------------------------------------------- effects on one row

  lemma NextVersionIsNew(rows: map<nat, Row>)
    requires Numbered(rows)
    ensures NextVersion(rows) !in rows && NextVersion(rows) > 0
    ensures NextVersion(rows) > 1 ==> NextVersion(rows) - 1 in rows
  {
  }

  lemma SavingKeepsRows(e: Env, u: UpdateId, rows: map<nat, Row>, doc: Doc, at: Time)
    requires RowsOk(u, rows)
    ensures RowsOk(u, rows[NextVersion(rows) := FullRow(e, u, NextVersion(rows), doc, at)])
  {
    NextVersionIsNew(rows);
  }

  lemma RebasingKeepsRows(e: Env, u: UpdateId, rows: map<nat, Row>, number: nat, text: Text)
    requires RowsOk(u, rows) && NoMark(text)
    ensures RowsOk(u, rows[DELTA_BASE_VERSION := BaseRow(e, u, number, text)])
  {
  }

  /** A lease-holder's write: the row keeps running and keeps its identity. */
  predicate StillRunning(row: UpdateRow, row': UpdateRow) {
    row.status == Running && row' == row.(rows := row'.rows, journal := row'.journal, lease := row'.lease)
  }

  /** What a lease-holder's accepted request writes: nothing, or its own row, still running. */
  ghost predicate WritesOwnRow(u: UpdateId, row: UpdateRow, c: Change) {
    && c.active == map[] && c.dropped.None?
    && (c.rows == map[]
        || (c.rows.Keys == {u} && StillRunning(row, c.rows[u]) && (RowOk(u, row) ==> RowOk(u, c.rows[u]))))
  }

  lemma SaveDocWrites(e: Env, u: UpdateId, row: UpdateRow, doc: Doc, at: Time)
    requires row.status == Running
    ensures WritesOwnRow(u, row, SaveDoc(e, u, row, doc, at))
  {
    if RowOk(u, row) { SavingKeepsRows(e, u, row.rows, doc, at); }
  }

  lemma SaveDocAndBaseWrites(e: Env, u: UpdateId, row: UpdateRow, doc: Doc, number: nat, text: Text, at: Time)
    requires row.status == Running && NoMark(text)
    ensures WritesOwnRow(u, row, SaveDocAndBase(e, u, row, doc, number, text, at))
  {
    if RowOk(u, row) {
      SavingKeepsRows(e, u, row.rows, doc, at);
      RebasingKeepsRows(
        e, u, row.rows[NextVersion(row.rows) := FullRow(e, u, NextVersion(row.rows), doc, at)], number, text);
    }
  }

  lemma RowOpEffect(e: Env, op: Op, row: UpdateRow, at: Time, base: Baseline)
    requires EncodingFacts(e) && OnRow(op) && PlanRow(e, op, row, at, base).Success?
    ensures WritesOwnRow(op.update, row, PlanRow(e, op, row, at, base).value)
  {
    hide SaveDoc, SaveDocAndBase, RowOk, JournalStore.InsertRows, JournalStore.Flushed;
    match op {
      case Patch(u, doc) => SaveDocWrites(e, u, row, doc, at);
      case Verbatim(u, number, text) =>
        if PlanRow(e, op, row, at, base).value != NO_CHANGE {
          SaveDocAndBaseWrites(e, u, row, e.parse(text).value, number, text, at);
        }
      case Delta(u, number, edits, expected) =>
        if PlanRow(e, op, row, at, base).value != NO_CHANGE {
          var text := Edited(e, base.text, edits, expected).value;
          SaveDocAndBaseWrites(e, u, row, e.parse(text).value, number, text, at);
        }
      case Journal(u, batch, doc) => JournalWrites(e, op, row, at);
      case Renew(u, _, _, _) => RenewWrites(e, op, row, at);
    }
  }

  lemma JournalWrites(e: Env, op: Op, row: UpdateRow, at: Time)
    requires op.Journal? && PlanJournal(e, op.update, row, op.batch, op.base, at).Success?
    ensures WritesOwnRow(op.update, row, PlanJournal(e, op.update, row, op.batch, op.base, at).value)
  {
    hide JournalStore.InsertRows, JournalStore.Flushed;
    if op.batch != [] && JournalStore.HasNonElided(op.batch) {
      var stored := JournalStore.InsertRows(row.journal, op.batch);
      SaveDocWrites(e, op.update, row.(journal := stored), JournalStore.Flushed(op.base, stored), at);
    }
  }

  lemma RenewWrites(e: Env, op: Op, row: UpdateRow, at: Time)
    requires op.Renew? && PlanRow(e, op, row, at, NoBaseline).Success?
    ensures WritesOwnRow(op.update, row, PlanRow(e, op, row, at, NoBaseline).value)
  {
  }

  // --------------------------------------------------------------------- effects on the tables

  /** Both tables hold the same updates with the same kinds and versions. */
  ghost predicate SameNumbers(db: Db, db': Db) {
    && db'.updates.Keys == db.updates.Keys
    && forall u <- db.updates ::
         db'.updates[u].kind == db.updates[u].kind && db'.updates[u].version == db.updates[u].version
  }

  lemma SameNumbersKeepVersions(db: Db, db': Db, s: StackId)
    requires SameNumbers(db, db') && VersionsOk(db, s)
    ensures VersionsOk(db', s)
  {
    assert Versions(db', s, false) == Versions(db, s, false) by {
      forall v ensures v in Versions(db', s, false) <==> v in Versions(db, s, false) {}
    }
    assert forall u :: Numbers(db', u) <==> Numbers(db, u);
  }

  lemma SameNumbersKeepAll(db: Db, db': Db)
    requires SameNumbers(db, db') && AllVersionsOk(db)
    ensures AllVersionsOk(db')
  {
    forall s: StackId ensures VersionsOk(db', s) { SameNumbersKeepVersions(db, db', s); }
  }

  /** A change of existing rows that keeps kinds and versions, each row staying well formed. */
  ghost predicate RewritesRows(db: Db, c: Change) {
    && c.dropped.None?
    && c.active.Keys <= db.active.Keys
    && (forall u <- c.rows :: u in db.updates && RowOk(u, c.rows[u])
          && c.rows[u].kind == db.updates[u].kind && c.rows[u].version == db.updates[u].version)
  }

  lemma RewritingKeeps(db: Db, c: Change)
    requires DbOk(db) && RewritesRows(db, c) && ActiveOk(After(db, c))
    ensures DbOk(After(db, c))
  {
    hide RowOk, VersionsOk;
    SameNumbersKeepAll(db, After(db, c));
  }

  lemma RowOpKeeps(e: Env, op: Op, at: Time, db: Db, base: Baseline)
    requires EncodingFacts(e) && OnRow(op) && DbOk(db) && PlanWith(e, op, at, db, base).Success?
    ensures DbOk(After(db, PlanWith(e, op, at, db, base).value))
  {
    hide PlanRow, RowOk, AllVersionsOk, ActiveOk, EncodingFacts;
    var c := PlanWith(e, op, at, db, base).value;
    if op.update in db.updates {
      RowOpEffect(e, op, db.updates[op.update], at, base);
    }
    OwnRowKeepsActive(db, op.update, c);
    RewritingKeeps(db, c);
  }

  lemma OwnRowKeepsActive(db: Db, u: UpdateId, c: Change)
    requires DbOk(db)
    requires if u in db.updates then WritesOwnRow(u, db.updates[u], c) else c == NO_CHANGE
    ensures ActiveOk(After(db, c))
  {
    hide RowOk, AllVersionsOk, ActiveOk;
    if u in db.updates {
      if !Terminal(db.updates[u].status) { LiveIsActive(db, u); }
      OneRowKeepsActive(db, After(db, c), u);
    } else {
      assert After(db, c) == db;
    }
  }

  /** What an accepted start, completion or cancellation writes. */
  ghost predicate WritesLifecycle(u: UpdateId, row: UpdateRow, c: Change) {
    && c.dropped.None? && c.rows.Keys == {u}
    && (RowOk(u, row) ==> RowOk(u, c.rows[u]))
    && c.rows[u].kind == row.kind && c.rows[u].version == row.version
    && if Terminal(row.status) then c.active == map[] && c.rows[u].status == row.status
       else c.active == map[u.stack := if Terminal(c.rows[u].status) then None else Some(u)]
  }

  lemma DroppingBaseKeepsRows(u: UpdateId, rows: map<nat, Row>)
    requires RowsOk(u, rows)
    ensures RowsOk(u, rows - {DELTA_BASE_VERSION})
  {
  }

  lemma LifecycleOpEffect(e: Env, op: Op, row: UpdateRow, at: Time, base: Baseline)
    requires OnRowAndStack(op) && PlanRow(e, op, row, at, base).Success?
    ensures WritesLifecycle(op.update, row, PlanRow(e, op, row, at, base).value)
  {
    hide RowsOk, ReadBaseline;
    if RowsOk(op.update, row.rows) { DroppingBaseKeepsRows(op.update, row.rows); }
    match op {
      case Start(u, token) => assert PlanRow(e, op, row, at, base) == PlanStart(e, u, row, token, at);
      case Complete(u, status) => assert PlanRow(e, op, row, at, base) == PlanComplete(u, row, status);
      case Cancel(u) => assert PlanRow(e, op, row, at, base) == PlanCancel(u, row);
    }
  }

  lemma LifecycleOpKeeps(e: Env, op: Op, at: Time, db: Db, base: Baseline)
    requires OnRowAndStack(op) && DbOk(db) && PlanWith(e, op, at, db, base).Success?
    ensures DbOk(After(db, PlanWith(e, op, at, db, base).value))
  {
    hide PlanRow, RowOk, AllVersionsOk, ActiveOk;
    var c := PlanWith(e, op, at, db, base).value;
    LifecycleOpEffect(e, op, db.updates[op.update], at, base);
    LifecycleKeepsActive(db, op.update, c);
    RewritingKeeps(db, c);
  }

  lemma LifecycleKeepsActive(db: Db, u: UpdateId, c: Change)
    requires DbOk(db) && u in db.updates && WritesLifecycle(u, db.updates[u], c)
    ensures ActiveOk(After(db, c))
  {
    hide RowOk, AllVersionsOk, AllRowsOk, ActiveOk;
    var db' := After(db, c);
    assert forall w <- db.updates :: w != u ==> db'.updates[w] == db.updates[w];
    if !Terminal(db.updates[u].status) { LiveIsActive(db, u); }
    OneRowKeepsActive(db, db', u);
  }

  lemma LiveIsActive(db: Db, u: UpdateId)
    requires ActiveOk(db) && u in db.updates && !Terminal(db.updates[u].status)
    ensures u.stack in db.active && db.active[u.stack] == Some(u)
  {
  }

  lemma OneRowKeepsActive(db: Db, db': Db, u: UpdateId)
    requires ActiveOk(db) && u in db.updates && db'.updates.Keys == db.updates.Keys
    requires forall w <- db.updates :: w != u ==> db'.updates[w] == db.updates[w]
    requires if Terminal(db.updates[u].status) then Terminal(db'.updates[u].status) && db'.active == db.active
             else
               && u.stack in db.active && db.active[u.stack] == Some(u)
               && db'.active == db.active[u.stack := if Terminal(db'.updates[u].status) then None else Some(u)]
    ensures ActiveOk(db')
  {
  }

  lemma SweptIsOk(e: Env, u: UpdateId, row: UpdateRow, readAt: Time)
    requires RowOk(u, row) && (Expired(e, row, readAt) || Stale(e, row, readAt))
    ensures RowOk(u, Swept(e, row, readAt)) && !Terminal(row.status)
    ensures Swept(e, row, readAt).kind == row.kind && Swept(e, row, readAt).version == row.version
    ensures Swept(e, row, readAt).status == Cancelled
  {
    hide RowsOk;
  }

  /** What a sweep writes: each row it takes is live and becomes cancelled, and its stack is freed. */
  ghost predicate WritesSweep(db: Db, c: Change) {
    && c.dropped.None?
    && (forall u <- c.rows :: u in db.updates && !Terminal(db.updates[u].status) && c.rows[u].status == Cancelled)
    && (forall s <- c.active :: c.active[s] == None && s in db.active)
    && (forall s <- db.active :: s in c.active <==> db.active[s].Some? && db.active[s].value in c.rows)
  }

  lemma SweepEffect(e: Env, op: Op, db: Db)
    requires op.Sweep? && DbOk(db)
    ensures WritesSweep(db, SweepChange(e, db, op.stacks, op.chosen, op.readAt))
    ensures RewritesRows(db, SweepChange(e, db, op.stacks, op.chosen, op.readAt))
  {
    hide RowOk, VersionsOk, Swept, Expired, Stale;
    var orphans := Orphans(e, db, op.stacks, op.chosen, op.readAt);
    forall u <- orphans
      ensures RowOk(u, Swept(e, db.updates[u], op.readAt)) && !Terminal(db.updates[u].status)
      ensures Swept(e, db.updates[u], op.readAt).status == Cancelled
      ensures Swept(e, db.updates[u], op.readAt).kind == db.updates[u].kind
      ensures Swept(e, db.updates[u], op.readAt).version == db.updates[u].version
    {
      SweptIsOk(e, u, db.updates[u], op.readAt);
    }
  }

  lemma SweepKeepsActive(db: Db, c: Change)
    requires DbOk(db) && WritesSweep(db, c)
    ensures ActiveOk(After(db, c))
  {
    hide AllRowsOk, AllVersionsOk, ActiveOk;
    var db' := After(db, c);
    forall u <- db'.updates | !Terminal(db'.updates[u].status)
      ensures u.stack in db'.active && db'.active[u.stack] == Some(u)
    {
      LiveIsActive(db, u);
    }
    SweptActiveIsLive(db, c);
    ActiveFromParts(db');
  }

  lemma SweptActiveIsLive(db: Db, c: Change)
    requires ActiveOk(db) && WritesSweep(db, c)
    ensures var db' := After(db, c);
            forall s <- db'.active :: db'.active[s].Some? ==>
              && db'.active[s].value.stack == s && db'.active[s].value in db'.updates
              && !Terminal(db'.updates[db'.active[s].value].status)
  {
  }

  lemma ActiveFromParts(db: Db)
    requires forall u <- db.updates | !Terminal(db.updates[u].status) ::
      u.stack in db.active && db.active[u.stack] == Some(u)
    requires forall s <- db.active :: db.active[s].Some? ==>
      && db.active[s].value.stack == s && db.active[s].value in db.updates
      && !Terminal(db.updates[db.active[s].value].status)
    ensures ActiveOk(db)
  {
  }

  lemma SweepKeeps(e: Env, op: Op, at: Time, db: Db)
    requires op.Sweep? && DbOk(db)
    ensures DbOk(After(db, SweepChange(e, db, op.stacks, op.chosen, op.readAt)))
  {
    hide DbOk, SweepChange, RewritesRows, WritesSweep, ActiveOk;
    SweepEffect(e, op, db);
    SweepKeepsActive(db, SweepChange(e, db, op.stacks, op.chosen, op.readAt));
    RewritingKeeps(db, SweepChange(e, db, op.stacks, op.chosen, op.readAt));
  }

  lemma DeleteKeeps(op: Op, db: Db)
    requires op.Delete? && DbOk(db) && PlanDelete(db, op.stack, op.force).Success?
    ensures DbOk(After(db, PlanDelete(db, op.stack, op.force).value))
  {
    hide RowOk;
    var db' := After(db, PlanDelete(db, op.stack, op.force).value);
    forall s: StackId ensures VersionsOk(db', s) {
      DeletedVersions(db, db', op.stack, s);
    }
  }

  lemma DeletedVersions(db: Db, db': Db, gone: StackId, s: StackId)
    requires db'.updates == map u | u in db.updates && u.stack != gone :: db.updates[u]
    requires VersionsOk(db, s)
    ensures VersionsOk(db', s)
  {
    if s == gone {
      assert Versions(db', s, false) == {};
    } else {
      assert Versions(db', s, false) == Versions(db, s, false);
    }
  }

  // --------------------------------------------------------------------- new updates

  lemma InsertedVersions(db: Db, id: UpdateId, row: UpdateRow, s: StackId)
    requires id !in db.updates
    ensures var db' := Db(db.active, db.updates[id := row]);
            Versions(db', s, false) ==
            Versions(db, s, false) + (if row.kind != Preview && id.stack == s then {row.version} else {})
  {
    var db' := Db(db.active, db.updates[id := row]);
    forall v ensures v in Versions(db', s, false) <==>
                     v in Versions(db, s, false) || (row.kind != Preview && id.stack == s && v == row.version)
    {
      if v in Versions(db, s, false) {
        var u :| u in db.updates && u.stack == s && db.updates[u].kind != Preview && db.updates[u].version == v;
        assert u in db'.updates && db'.updates[u] == db.updates[u];
      }
      if row.kind != Preview && id.stack == s && v == row.version {
        assert id in db'.updates;
      }
    }
  }

  /** A non-preview update gets the number after the last one; other stacks keep theirs. */
  lemma NextNumberKeeps(db: Db, id: UpdateId, row: UpdateRow, s: StackId)
    requires VersionsOk(db, s) && id !in db.updates
    requires row.kind != Preview ==> row.version == MaxOrZero(Versions(db, id.stack, false)) + 1
    ensures VersionsOk(Db(db.active, db.updates[id := row]), s)
  {
    InsertedVersions(db, id, row, s);
    var db' := Db(db.active, db.updates[id := row]);
    var old_, new_ := Versions(db, s, false), Versions(db', s, false);
    forall u, w | Numbers(db', u) && Numbers(db', w) && u.stack == s && w.stack == s
                  && db'.updates[u].version == db'.updates[w].version
      ensures u == w
    {
      if u != id { assert Numbers(db, u); }
      if w != id { assert Numbers(db, w); }
      if u != id { assert db.updates[u].version in old_; }
      if w != id { assert db.updates[w].version in old_; }
    }
    if row.kind != Preview && id.stack == s {
      assert row.version in new_;
      assert MaxOrZero(new_) == row.version;
    } else {
      assert new_ == old_;
    }
  }

  lemma InsertKeeps(db: Db, s: StackId, id: UpdateId, row: UpdateRow, active: Option<UpdateId>)
    requires DbOk(db) && s in db.active && id !in db.updates && id.stack == s && db.active[s].None?
    requires RowOk(id, row) && active == if Terminal(row.status) then None else Some(id)
    requires row.kind != Preview ==> row.version == MaxOrZero(Versions(db, s, false)) + 1
    ensures DbOk(Db(db.active[s := active], db.updates[id := row]))
  {
    hide RowOk, VersionsOk;
    var db' := Db(db.active[s := active], db.updates[id := row]);
    forall x: StackId ensures VersionsOk(db', x) {
      NextNumberKeeps(db, id, row, x);
      SameNumbersKeepVersions(Db(db.active, db.updates[id := row]), db', x);
    }
  }

  lemma CreateKeeps(op: Op, at: Time, db: Db)
    requires op.Create? && DbOk(db) && FreshId(db, op) && PlanCreate(db, op.stack, op.kind, op.id, at).Success?
    ensures DbOk(After(db, PlanCreate(db, op.stack, op.kind, op.id, at).value))
  {
    hide DbOk;
    var c := PlanCreate(db, op.stack, op.kind, op.id, at).value;
    InsertKeeps(db, op.stack, op.id, c.rows[op.id], Some(op.id));
    assert After(db, c) == Db(db.active[op.stack := Some(op.id)], db.updates[op.id := c.rows[op.id]]);
  }

  lemma ImportKeeps(e: Env, op: Op, at: Time, db: Db)
    requires op.ImportDoc? && DbOk(db) && FreshId(db, op)
    requires PlanImport(e, db, op.stack, op.doc, op.head, op.id, at).Success?
    ensures DbOk(After(db, PlanImport(e, db, op.stack, op.doc, op.head, op.id, at).value))
  {
    hide DbOk;
    var c := PlanImport(e, db, op.stack, op.doc, op.head, op.id, at).value;
    SavingKeepsRows(e, op.id, map[], op.doc, at);
    InsertKeeps(db, op.stack, op.id, c.rows[op.id], None);
    assert After(db, c) == Db(db.active[op.stack := None], db.updates[op.id := c.rows[op.id]]);
  }

  lemma AddStackKeeps(op: Op, db: Db)
    requires op.AddStack? && DbOk(db) && PlanAddStack(db, op.stack).Success?
    ensures DbOk(After(db, PlanAddStack(db, op.stack).value))
  {
    hide RowOk, VersionsOk;
    var c := PlanAddStack(db, op.stack).value;
    assert ActiveOk(After(db, c));
    RewritingKeepsUpdates(db, After(db, c));
  }

  lemma RewritingKeepsUpdates(db: Db, db': Db)
    requires AllVersionsOk(db) && db'.updates == db.updates
    ensures AllVersionsOk(db')
  {
    SameNumbersKeepAll(db, db');
  }

  /** Every accepted request keeps the tables well formed. */
  lemma RequestsKeep(e: Env, op: Op, at: Time, db: Db, base: Baseline)
    requires EncodingFacts(e) && DbOk(db) && FreshId(db, op) && PlanWith(e, op, at, db, base).Success?
    ensures DbOk(After(db, PlanWith(e, op, at, db, base).value))
  {
    hide DbOk, EncodingFacts, After;
    match op {
      case AddStack(_) => AddStackKeeps(op, db);
      case Create(_, _, _) => CreateKeeps(op, at, db);
      case ImportDoc(_, _, _, _) => ImportKeeps(e, op, at, db);
      case Delete(_, _) => DeleteKeeps(op, db);
      case Sweep(_, _, _) => SweepKeeps(e, op, at, db);
      case _ => if OnRow(op) { RowOpKeeps(e, op, at, db, base); } else { LifecycleOpKeeps(e, op, at, db, base); }
    }
  }

  // --------------------------------------------------------------------- over any accepted request

  /** What an accepted request does to an update that has ended: its cancellation drops the baseline, no other acts. */
  predicate OnlyLosesBase(op: Op, u: UpdateId, row: UpdateRow, row': UpdateRow) {
    row' == if op == Cancel(u) then row.(rows := row.rows - {DELTA_BASE_VERSION}) else row
  }

  /**
   * Terminal statuses are absorbing: an ended update only disappears with its stack, and until
   * then gains no checkpoint, journal or outbox row. A late cancellation leaves it no baseline.
   */
  lemma EndedStaysEnded(e: Env, op: Op, at: Time, db: Db, base: Baseline, u: UpdateId)
    requires EncodingFacts(e) && DbOk(db) && FreshId(db, op) && PlanWith(e, op, at, db, base).Success?
    requires u in db.updates && Terminal(db.updates[u].status)
    ensures var after := After(db, PlanWith(e, op, at, db, base).value).updates;
            if u in after then OnlyLosesBase(op, u, db.updates[u], after[u]) else op.Delete? && op.stack == u.stack
  {
    hide RowOk, AllVersionsOk, EncodingFacts, PlanRow, SweepChange, Versions;
    if OnRow(op) {
      OwnRowOnly(e, op, at, db, base);
    } else if OnRowAndStack(op) {
      LifecycleLeavesEnded(e, op, at, db, base, u);
    } else if op.Sweep? {
      SweepEffect(e, op, db);
    }
  }

  /** Of the requests that end an update only a sweep leaves it a baseline, the one it had. */
  lemma EndingRequest(e: Env, op: Op, at: Time, db: Db, u: UpdateId)
    requires EncodingFacts(e) && DbOk(db) && FreshId(db, op) && Ideal(e, op, at, db).Success?
    requires u in After(db, Ideal(e, op, at, db).value).updates
    requires Terminal(After(db, Ideal(e, op, at, db).value).updates[u].status)
    requires u in db.updates ==> !Terminal(db.updates[u].status)
    ensures DELTA_BASE_VERSION in After(db, Ideal(e, op, at, db).value).updates[u].rows <==>
            && op.Sweep? && u in Orphans(e, db, op.stacks, op.chosen, op.readAt)
            && DELTA_BASE_VERSION in db.updates[u].rows
  {
    hide RowOk, AllVersionsOk, EncodingFacts, PlanRow, Versions, Expired, Stale;
    if OnRow(op) {
      OwnRowOnly(e, op, at, db, GivenBaseline(RowsOf(op, db)));
    } else if OnRowAndStack(op) {
      if op.update in db.updates {
        LifecycleEnds(e, op, db.updates[op.update], at, GivenBaseline(db.updates[op.update].rows));
      }
    } else {
      WholeRequestKeepsContents(e, op, at, db, u);
      WholeRequestEnds(e, op, at, db, u);
    }
  }

  lemma LifecycleEnds(e: Env, op: Op, row: UpdateRow, at: Time, base: Baseline)
    requires OnRowAndStack(op) && PlanRow(e, op, row, at, base).Success?
    ensures var rows := PlanRow(e, op, row, at, base).value.rows;
            rows.Keys == {op.update} && PlanRow(e, op, row, at, base).value.dropped.None?
            && (Terminal(rows[op.update].status) && !Terminal(row.status) ==>
                  DELTA_BASE_VERSION !in rows[op.update].rows)
  {
  }

  lemma WholeRequestEnds(e: Env, op: Op, at: Time, db: Db, u: UpdateId)
    requires !OnRow(op) && !OnRowAndStack(op) && FreshId(db, op) && Ideal(e, op, at, db).Success?
    requires u in db.updates && u in After(db, Ideal(e, op, at, db).value).updates ==>
      !Terminal(db.updates[u].status) && Terminal(After(db, Ideal(e, op, at, db).value).updates[u].status)
    ensures u in db.updates && u in After(db, Ideal(e, op, at, db).value).updates ==>
      op.Sweep? && u in Orphans(e, db, op.stacks, op.chosen, op.readAt)
    ensures op.Sweep? && u in Orphans(e, db, op.stacks, op.chosen, op.readAt) ==> u in db.updates
  {
    hide Versions, Latest, OrphanKeys, Populated, Expired, Stale, FullRow, Puts;
  }

  lemma OwnRowOnly(e: Env, op: Op, at: Time, db: Db, base: Baseline)
    requires EncodingFacts(e) && OnRow(op) && PlanWith(e, op, at, db, base).Success?
    ensures var c := PlanWith(e, op, at, db, base).value;
            if op.update in db.updates then WritesOwnRow(op.update, db.updates[op.update], c) else c == NO_CHANGE
  {
    hide PlanRow;
    if op.update in db.updates { RowOpEffect(e, op, db.updates[op.update], at, base); }
  }

  lemma LifecycleLeavesEnded(e: Env, op: Op, at: Time, db: Db, base: Baseline, u: UpdateId)
    requires OnRowAndStack(op) && PlanWith(e, op, at, db, base).Success?
    requires u in db.updates && Terminal(db.updates[u].status)
    ensures var after := After(db, PlanWith(e, op, at, db, base).value).updates;
            u in after && OnlyLosesBase(op, u, db.updates[u], after[u])
  {
  }

  /** The number a new update is given. */
  function NumberFor(db: Db, op: Op): nat
    requires op.Create? || op.ImportDoc?
  {
    if op.Create? && op.kind == Preview then MaxOrZero(Versions(db, op.stack, true))
    else MaxOrZero(Versions(db, op.stack, false)) + 1
  }

  /** Kinds and numbers are given once and kept; a new non-preview update takes the number after the last. */
  lemma NumbersAreKept(e: Env, op: Op, at: Time, db: Db, base: Baseline, u: UpdateId)
    requires EncodingFacts(e) && DbOk(db) && FreshId(db, op) && PlanWith(e, op, at, db, base).Success?
    requires u in After(db, PlanWith(e, op, at, db, base).value).updates
    ensures var after := After(db, PlanWith(e, op, at, db, base).value).updates;
            if u in db.updates then after[u].kind == db.updates[u].kind && after[u].version == db.updates[u].version
            else (op.Create? || op.ImportDoc?) && u == op.id && after[u].version == NumberFor(db, op)
  {
    hide RowOk, AllVersionsOk, EncodingFacts, PlanRow, SweepChange, Versions;
    if OnRow(op) {
      OwnRowOnly(e, op, at, db, base);
    } else if OnRowAndStack(op) {
      LifecycleOpEffect(e, op, db.updates[op.update], at, base);
    } else if op.Sweep? {
      SweepEffect(e, op, db);
    }
  }

  /** What a request on a whole stack leaves of one update: its contents, or a new one without journal or baseline. */
  ghost predicate ContentsKept(db: Db, op: Op, after: Db, u: UpdateId) {
    u in after.updates ==>
      if u in db.updates then
        after.updates[u].rows == db.updates[u].rows && after.updates[u].journal == db.updates[u].journal
      else
        after.updates[u].journal == map[] && DELTA_BASE_VERSION !in after.updates[u].rows
  }

  lemma MissingChangesNothing(e: Env, op: Op, at: Time, db: Db)
    requires (OnRow(op) || OnRowAndStack(op)) && op.update !in db.updates && Ideal(e, op, at, db).Success?
    ensures After(db, Ideal(e, op, at, db).value).updates == db.updates
  {
  }

  lemma NewImportIsBare(e: Env, u: UpdateId, row: UpdateRow, doc: Doc, at: Time)
    requires row.rows == map[]
    ensures var change := SaveDoc(e, u, row, doc, at);
            && change.rows.Keys == {u} && change.rows[u].journal == row.journal
            && DELTA_BASE_VERSION !in change.rows[u].rows && change.dropped.None?
  {
    hide CodeUnits, NextVersion;
    NextVersionIsNew(row.rows);
  }

  lemma WholeRequestKeepsContents(e: Env, op: Op, at: Time, db: Db, u: UpdateId)
    requires !OnRow(op) && !OnRowAndStack(op) && FreshId(db, op) && Ideal(e, op, at, db).Success?
    ensures ContentsKept(db, op, After(db, Ideal(e, op, at, db).value), u)
  {
    hide Versions, SaveDoc, Latest, OrphanKeys, Populated, Expired, Stale;
    if op.ImportDoc? {
      var row := NewRow(Import, Succeeded, MaxOrZero(Versions(db, op.stack, false)) + 1, at);
      NewImportIsBare(e, op.id, row, op.doc, at);
    }
  }

  // --------------------------------------------------------------------- how many versions

  ghost function CountedUpdates(db: Db, s: StackId): set<UpdateId> {
    set u | u in db.updates && u.stack == s && db.updates[u].kind != Preview
  }

  /** The numbers 1..n. */
  function UpTo(n: nat): set<nat> {
    if n == 0 then {} else UpTo(n - 1) + {n}
  }

  lemma {:induction false} UpToSize(n: nat)
    ensures |UpTo(n)| == n
    ensures forall v: nat :: v in UpTo(n) <==> 1 <= v <= n
  {
    if n > 0 { UpToSize(n - 1); }
  }

  lemma {:induction false} DistinctVersions(db: Db, s: StackId, us: set<UpdateId>)
    requires VersionsOk(db, s) && us <= CountedUpdates(db, s)
    ensures |set u | u in us :: db.updates[u].version| == |us|
    decreases |us|
  {
    if us != {} {
      var w :| w in us;
      var rest := us - {w};
      DistinctVersions(db, s, rest);
      var taken := set u | u in rest :: db.updates[u].version;
      assert forall u <- us :: Numbers(db, u);
      assert db.updates[w].version !in taken;
      assert (set u | u in us :: db.updates[u].version) == taken + {db.updates[w].version};
    }
  }

  /** A stack with n non-preview updates has used exactly the numbers 1..n. */
  lemma VersionsCountUpdates(db: Db, s: StackId)
    requires VersionsOk(db, s)
    ensures MaxOrZero(Versions(db, s, false)) == |CountedUpdates(db, s)|
    ensures Versions(db, s, false) == UpTo(|CountedUpdates(db, s)|)
  {
    var n := MaxOrZero(Versions(db, s, false));
    DistinctVersions(db, s, CountedUpdates(db, s));
    assert (set u | u in CountedUpdates(db, s) :: db.updates[u].version) == Versions(db, s, false);
    UpToSize(n);
    assert Versions(db, s, false) == UpTo(n);
  }

  // --------------------------------------------------------------------- what a save stores

  /** The document a save stands for. */
  function SavedDoc(e: Env, op: Op, base: Baseline): Option<Doc> {
    match op
    case Patch(_, doc) => Some(doc)
    case Verbatim(_, _, text) => e.parse(text)
    case Delta(_, _, edits, expected) =>
      if base.Retained? && Edited(e, base.text, edits, expected).Some?
      then e.parse(Edited(e, base.text, edits, expected).value) else None
    case ImportDoc(_, doc, _, _) => Some(doc)
    case _ => None
  }

  /** One full checkpoint more, under the next version, and the others as they were. */
  predicate AddsCheckpoint(rows: map<nat, Row>, rows': map<nat, Row>, doc: Doc, at: Time) {
    var v := NextVersion(rows);
    && v in rows' && rows'[v].Full? && rows'[v].doc == doc && rows'[v].createdAt == at
    && (forall w <- rows :: w != DELTA_BASE_VERSION ==> w in rows' && rows'[w] == rows[w])
    && (forall w <- rows' :: w != DELTA_BASE_VERSION && w != v ==> w in rows)
  }

  /** An accepted save that is no replay adds exactly the document it was given. */
  lemma SaveAddsDocument(e: Env, op: Op, row: UpdateRow, at: Time, base: Baseline)
    requires (op.Patch? || op.Verbatim? || op.Delta?) && PlanRow(e, op, row, at, base).Success?
    requires PlanRow(e, op, row, at, base).value != NO_CHANGE && Numbered(row.rows)
    ensures SavedDoc(e, op, base).Some?
    ensures var after := PlanRow(e, op, row, at, base).value.rows;
            op.update in after && AddsCheckpoint(row.rows, after[op.update].rows, SavedDoc(e, op, base).value, at)
  {
    hide Edited, CodeUnits, NextVersion, AddsCheckpoint;
    match op {
      case Patch(u, doc) => SaveDocAdds(e, u, row, doc, at);
      case Verbatim(u, number, text) => SaveDocAndBaseAdds(e, u, row, e.parse(text).value, number, text, at);
      case Delta(u, number, edits, expected) =>
        var text := Edited(e, base.text, edits, expected).value;
        SaveDocAndBaseAdds(e, u, row, e.parse(text).value, number, text, at);
    }
  }

  lemma SaveDocAdds(e: Env, u: UpdateId, row: UpdateRow, doc: Doc, at: Time)
    requires Numbered(row.rows)
    ensures u in SaveDoc(e, u, row, doc, at).rows
    ensures AddsCheckpoint(row.rows, SaveDoc(e, u, row, doc, at).rows[u].rows, doc, at)
  {
    hide CodeUnits, NextVersion;
    NextVersionIsNew(row.rows);
  }

  lemma SaveDocAndBaseAdds(e: Env, u: UpdateId, row: UpdateRow, doc: Doc, number: nat, text: Text, at: Time)
    requires Numbered(row.rows)
    ensures var after := SaveDocAndBase(e, u, row, doc, number, text, at).rows;
            u in after && AddsCheckpoint(row.rows, after[u].rows, doc, at)
  {
    hide CodeUnits, NextVersion;
    NextVersionIsNew(row.rows);
  }

  /** An accepted import adds one succeeded update whose only checkpoint is the document, on a stack at rest. */
  lemma ImportAddsDocument(e: Env, op: Op, at: Time, db: Db)
    requires op.ImportDoc? && FreshId(db, op) && PlanImport(e, db, op.stack, op.doc, op.head, op.id, at).Success?
    ensures var after := After(db, PlanImport(e, db, op.stack, op.doc, op.head, op.id, at).value);
            && op.id in after.updates
            && after.updates[op.id].kind == Import && after.updates[op.id].status == Succeeded
            && AddsCheckpoint(map[], after.updates[op.id].rows, op.doc, at)
            && after.active == db.active && db.active[op.stack] == None
            && (forall u <- db.updates :: u in after.updates && after.updates[u] == db.updates[u])
            && (op.head.Some? ==> Latest(db, op.stack, None, op.head.value))
  {
    hide CodeUnits, Versions, Latest;
    assert db.active + map[] == db.active;
  }
}
