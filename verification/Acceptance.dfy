/**
 * When the service accepts a request, and what it answers otherwise, in terms of the rows the
 * request finds: status, lease, sequence number, and what is saved last on the stack.
 */
module Acceptance {
  import opened Wrappers
  import opened UpdateModel
  import opened UpdatePlans
  import opened Lifecycle
  import opened Transactions
  import JournalStore
  import TextEdits

  /** The update runs under a lease that has not expired at `at`. */
  predicate MayWrite(row: UpdateRow, at: Time) {
    row.status == Running && row.token.Some? && (row.lease.Some? ==> at <= row.lease.value)
  }

  /** The row is a full checkpoint of the stack, and none of the stack was created later. */
  ghost predicate CreatedLast(db: Db, s: StackId, r: RowId) {
    && r.update.stack == s && IsFull(db, r)
    && forall o: RowId :: o.update.stack == s && IsFull(db, o) ==> RowAt(db, o).createdAt <= RowAt(db, r).createdAt
  }

  /** The stack has no checkpoint, or one created last that is kept in its row and lists no resource. */
  ghost predicate IsBare(db: Db, s: StackId) {
    || (forall r: RowId :: r.update.stack == s ==> !IsFull(db, r))
    || exists r: RowId :: CreatedLast(db, s, r) && RowAt(db, r).key.None?
         && (RowAt(db, r).doc.resources.None? || RowAt(db, r).doc.resources == Some([]))
  }

  /** The delta's edits apply to the baseline and give a text of the hash sent that parses. */
  predicate EditsFit(e: Env, base: Baseline, op: Op)
    requires op.Delta? && base.Retained?
  {
    var edited := TextEdits.Outcome(e.encode(base.text), op.edits);
    && edited.Success? && e.hash(edited.value) == op.expected
    && e.decode(edited.value).Some? && e.parse(e.decode(edited.value).value).Some?
  }

  predicate AcceptsRow(e: Env, op: Op, at: Time, row: UpdateRow)
    requires OnRow(op) || OnRowAndStack(op)
  {
    var base := GivenBaseline(row.rows);
    match op
    case Start(_, _) => row.status == NotStarted
    case Complete(_, status) => Terminal(status) && row.status == Running
    case Cancel(_) => true
    case Renew(_, seen, _, _) =>
      row.status == Running && row.token == Some(seen) && row.lease.Some? && at < row.lease.value
    case Patch(_, _) => MayWrite(row, at)
    case Verbatim(_, number, text) =>
      && e.parse(text).Some? && MayWrite(row, at) && !base.Broken?
      && (base.Retained? ==> number == base.number + 1 || (number == base.number && base.text == text))
    case Delta(_, number, _, expected) =>
      && MayWrite(row, at) && base.Retained?
      && ((number == base.number + 1 && EditsFit(e, base, op))
          || (number == base.number && e.hash(e.encode(base.text)) == expected))
    case Journal(_, batch, _) => batch == [] || MayWrite(row, at)
  }

  /** The requests the service accepts. */
  ghost predicate Accepts(e: Env, op: Op, at: Time, db: Db) {
    match op
    case AddStack(s) => s !in db.active
    case Create(s, _, _) => s in db.active && db.active[s].None?
    case ImportDoc(s, _, head, _) =>
      s in db.active && db.active[s].None? && (head.Some? ==> CreatedLast(db, s, head.value))
    case Delete(s, force) => s in db.active && (force || (db.active[s].None? && IsBare(db, s)))
    case Sweep(_, _, _) => true
    case Journal(u, batch, _) => batch == [] || (u in db.updates && MayWrite(db.updates[u], at))
    case _ => op.update in db.updates && AcceptsRow(e, op, at, db.updates[op.update])
  }

  lemma RowAccepted(e: Env, op: Op, at: Time, row: UpdateRow)
    requires OnRow(op) || OnRowAndStack(op)
    ensures PlanRow(e, op, row, at, GivenBaseline(row.rows)).Success? <==> AcceptsRow(e, op, at, row)
  {
    hide SaveDoc, SaveDocAndBase, JournalStore.InsertRows, JournalStore.Flushed, TextEdits.Outcome;
  }

  lemma LatestIsCreatedLast(db: Db, s: StackId, r: RowId)
    ensures Latest(db, s, None, r) <==> CreatedLast(db, s, r)
  {
    if CreatedLast(db, s, r) {
      forall o: RowId | Candidate(db, s, None, o) ensures RowAt(db, o).createdAt <= RowAt(db, r).createdAt {
        assert IsFull(db, o);
      }
    }
    if Latest(db, s, None, r) {
      forall o: RowId | o.update.stack == s && IsFull(db, o)
        ensures RowAt(db, o).createdAt <= RowAt(db, r).createdAt
      {
        assert Candidate(db, s, None, o);
      }
    }
  }

  lemma BareIsUnpopulated(db: Db, s: StackId)
    ensures IsBare(db, s) <==> !Populated(db, s)
  {
    forall r: RowId ensures Latest(db, s, None, r) <==> CreatedLast(db, s, r) { LatestIsCreatedLast(db, s, r); }
    forall r: RowId ensures Candidate(db, s, None, r) <==> r.update.stack == s && IsFull(db, r) {}
    if !Populated(db, s) && !(forall r: RowId :: r.update.stack == s ==> !IsFull(db, r)) {
      var r: RowId :| Latest(db, s, None, r) && !HasResourcesIn(RowAt(db, r));
      assert CreatedLast(db, s, r);
    }
  }

  /** A request is accepted exactly when its conditions hold of the rows it finds. */
  lemma AcceptedExactly(e: Env, op: Op, at: Time, db: Db)
    ensures Ideal(e, op, at, db).Success? <==> Accepts(e, op, at, db)
  {
    hide PlanRow, Latest, CreatedLast, Populated, IsBare, Versions, SaveDoc, SweepChange, OrphanKeys;
    match op {
      case ImportDoc(s, _, head, _) => if head.Some? { LatestIsCreatedLast(db, s, head.value); }
      case Delete(s, _) => BareIsUnpopulated(db, s);
      case AddStack(_) =>
      case Create(_, _, _) =>
      case Sweep(_, _, _) =>
      case _ =>
        if op.update in db.updates {
          RowAccepted(e, op, at, db.updates[op.update]);
        }
    }
  }

  // --------------------------------------------------------------------- refusals

  /** A write without a lease is refused as such, unless it is answered before the lease is looked at. */
  lemma LeaseIsMissing(e: Env, op: Op, at: Time, row: UpdateRow, base: Baseline)
    requires op.Patch? || op.Verbatim? || op.Delta? || op.Journal?
    ensures PlanRow(e, op, row, at, base) == Failure(LeaseExpired) <==>
            && !MayWrite(row, at)
            && (op.Verbatim? ==> e.parse(op.text).Some?) && (op.Journal? ==> op.batch != [])
  {
    hide SaveDoc, SaveDocAndBase, JournalStore.InsertRows, JournalStore.Flushed, TextEdits.Outcome;
  }

  /** A save that is otherwise in order is refused by its number: one passed, one taken, or one too far ahead. */
  lemma NumberIsRefused(e: Env, op: Op, at: Time, row: UpdateRow, base: Baseline)
    requires (op.Verbatim? && e.parse(op.text).Some?) || op.Delta?
    requires MayWrite(row, at) && base.Retained?
    ensures var outcome := PlanRow(e, op, row, at, base);
            var sameText := if op.Verbatim? then base.text == op.text else e.hash(e.encode(base.text)) == op.expected;
            && (outcome == Failure(StaleSequence) <==> op.number < base.number)
            && (outcome == Failure(ConflictingContent) <==> op.number == base.number && !sameText)
            && (outcome == Failure(OutOfOrder) <==> op.number > base.number + 1)
            && (outcome == Success(NO_CHANGE) <==> op.number == base.number && sameText)
  {
    hide SaveDoc, NextVersion, CodeUnits, JournalStore.InsertRows, JournalStore.Flushed, Edited;
    if PlanRow(e, op, row, at, base).Success? && op.number != base.number { SavesChange(e, op, row, at, base); }
  }

  lemma SavesChange(e: Env, op: Op, row: UpdateRow, at: Time, base: Baseline)
    requires (op.Verbatim? || op.Delta?) && PlanRow(e, op, row, at, base).Success?
    requires base.Retained? && op.number != base.number
    ensures PlanRow(e, op, row, at, base) != Success(NO_CHANGE)
  {
    hide NextVersion, CodeUnits, Edited;
    assert op.update in PlanRow(e, op, row, at, base).value.rows;
  }
}
