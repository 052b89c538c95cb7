/**
 * The life of one update over whole runs: which committed request moves it from one status to the
 * next, what it then announces, and why it has the status it has.
 */
module LifecycleRuns {
  import opened Wrappers
  import opened UpdateModel
  import opened UpdatePlans
  import opened Lifecycle
  import opened Transactions
  import opened Runs
  import opened RunTheorems
  import JournalStore

  // --------------------------------------------------------------------- one request

  /** Apart from checkpoints and journal the row is as it was. */
  predicate SameLife(row: UpdateRow, row': UpdateRow) {
    row' == row.(rows := row'.rows, journal := row'.journal)
  }

  /** The update ends with the status, and announces it if it is to. */
  predicate EndsAs(row: UpdateRow, row': UpdateRow, status: Status, announced: bool) {
    row' == row.(rows := row'.rows, status := status, token := None, lease := None,
                 events := row.events + if announced then [Ended(status)] else [])
  }

  /** The seconds a renewal is given: what it asks for, and no more than the default. */
  function Seconds(e: Env, duration: Option<int>): int {
    if duration.Some? && duration.value < e.leaseSeconds then duration.value else e.leaseSeconds
  }

  predicate Overdue(e: Env, row: UpdateRow, readAt: Time) {
    row.status == Running && row.lease.Some? && row.lease.value < readAt - e.graceSeconds
  }

  predicate NeverStarted(e: Env, row: UpdateRow, readAt: Time) {
    (row.status == NotStarted || row.status == Requested) && row.createdAt < readAt - e.staleSeconds
  }

  /** What a committed request makes of the row of an update that exists before and after it. */
  predicate Moves(e: Env, op: Op, at: Time, u: UpdateId, row: UpdateRow, row': UpdateRow) {
    if op.Start? && op.update == u then
      row.status == NotStarted
      && row' == row.(status := Running, token := Some(op.newToken), lease := Some(at + e.leaseSeconds),
                      startedAt := Some(at), events := row.events + [Started])
    else if op.Complete? && op.update == u then
      row.status == Running && Terminal(op.status) && EndsAs(row, row', op.status, true)
    else if op.Cancel? && op.update == u then
      if Terminal(row.status) then SameLife(row, row') else EndsAs(row, row', Cancelled, true)
    else if op.Renew? && op.update == u then
      row.status == Running && row.token == Some(op.seen) && row.lease.Some? && row.lease.value > at
      && row' == row.(lease := Some(op.readAt + Seconds(e, op.duration)))
    else if op.Sweep? && u in op.chosen && u.stack in op.stacks && Overdue(e, row, op.readAt) then
      EndsAs(row, row', Cancelled, true)
    else if op.Sweep? && u in op.chosen && u.stack in op.stacks && NeverStarted(e, row, op.readAt) then
      EndsAs(row, row', Cancelled, false)
    else SameLife(row, row')
  }

  lemma RowRequestMoves(e: Env, op: Op, row: UpdateRow, at: Time, base: Baseline)
    requires (OnRow(op) || OnRowAndStack(op)) && PlanRow(e, op, row, at, base).Success?
    ensures var c := PlanRow(e, op, row, at, base).value;
            && c.dropped.None? && c.rows.Keys <= {op.update}
            && Moves(e, op, at, op.update, row, if op.update in c.rows then c.rows[op.update] else row)
  {
    hide JournalStore.InsertRows, JournalStore.Flushed, CodeUnits, NextVersion, Edited;
  }

  /** A request on one update leaves the rows of the others alone. */
  lemma OthersStand(e: Env, op: Op, at: Time, u: UpdateId, row: UpdateRow)
    requires (OnRow(op) || OnRowAndStack(op)) && op.update != u
    ensures Moves(e, op, at, u, row, row)
  {
  }

  lemma RequestMoves(e: Env, op: Op, at: Time, db: Db, u: UpdateId)
    requires FreshId(db, op) && Ideal(e, op, at, db).Success?
    requires u in db.updates && u in After(db, Ideal(e, op, at, db).value).updates
    ensures Moves(e, op, at, u, db.updates[u], After(db, Ideal(e, op, at, db).value).updates[u])
  {
    hide PlanRow, Moves;
    if OnRow(op) || OnRowAndStack(op) {
      if op.update != u { OthersStand(e, op, at, u, db.updates[u]); }
      if op.update in db.updates {
        RowRequestMoves(e, op, db.updates[op.update], at, GivenBaseline(db.updates[op.update].rows));
      } else {
        MissingChangesNothing(e, op, at, db);
      }
    } else {
      WholeRequestMoves(e, op, at, db, u);
    }
  }

  lemma WholeRequestMoves(e: Env, op: Op, at: Time, db: Db, u: UpdateId)
    requires !OnRow(op) && !OnRowAndStack(op) && FreshId(db, op) && Ideal(e, op, at, db).Success?
    requires u in db.updates && u in After(db, Ideal(e, op, at, db).value).updates
    ensures Moves(e, op, at, u, db.updates[u], After(db, Ideal(e, op, at, db).value).updates[u])
  {
    hide Versions, Latest, OrphanKeys, Populated, FullRow, Puts;
  }

  /** A new update is one just created, of the kind asked for and not started, or an import that has succeeded. */
  predicate Appears(op: Op, at: Time, u: UpdateId, row: UpdateRow) {
    && (op.Create? || op.ImportDoc?) && op.id == u
    && row == UpdateRow(if op.Create? then op.kind else Import, if op.Create? then NotStarted else Succeeded,
                        row.version, None, None, at, None, row.rows, map[], [])
    && (op.Create? ==> row.rows == map[])
  }

  lemma RequestCreates(e: Env, op: Op, at: Time, db: Db, u: UpdateId)
    requires FreshId(db, op) && Ideal(e, op, at, db).Success?
    requires u !in db.updates && u in After(db, Ideal(e, op, at, db).value).updates
    ensures Appears(op, at, u, After(db, Ideal(e, op, at, db).value).updates[u])
  {
    hide PlanRow, Versions, Latest, OrphanKeys, Populated, FullRow, Puts;
    if OnRow(op) || OnRowAndStack(op) {
      if op.update in db.updates {
        RowRequestMoves(e, op, db.updates[op.update], at, GivenBaseline(db.updates[op.update].rows));
      }
    }
  }

  // --------------------------------------------------------------------- over runs

  /** Step `i` commits the request, decided at `at`. */
  predicate CommitsAt(states: seq<State>, steps: seq<Step>, i: nat, op: Op, at: Time) {
    && i < |steps| && i < |states| && steps[i].Commit? && steps[i].id in states[i].txs
    && states[i].txs[steps[i].id].op == op
    && states[i].txs[steps[i].id].prepared.Some? && states[i].txs[steps[i].id].prepared.value.at == at
  }

  /** Step `i` commits the request, which makes of the row of `u` what it is then. */
  predicate MovedBy(e: Env, states: seq<State>, steps: seq<Step>, i: nat, op: Op, at: Time, u: UpdateId) {
    && CommitsAt(states, steps, i, op, at) && i + 1 < |states| && u in states[i + 1].db.updates
    && if u in states[i].db.updates then Moves(e, op, at, u, states[i].db.updates[u], states[i + 1].db.updates[u])
       else Appears(op, at, u, states[i + 1].db.updates[u])
  }

  /** Every change of an update's row is one of the moves, by a committed request. */
  lemma StepMoves(e: Env, states: seq<State>, steps: seq<Step>, i: nat, u: UpdateId)
    requires EncodingFacts(e) && IsRun(e, states, steps) && i < |steps| && u in states[i + 1].db.updates
    ensures !steps[i].Commit? ==> states[i + 1].db == states[i].db
    ensures steps[i].Commit? ==>
      exists op, at :: MovedBy(e, states, steps, i, op, at, u)
  {
    hide EncodingFacts, DbOk, Ideal, Ready, Enabled, Next, Initial, After, Moves, Appears;
    TablesChangeByCommits(e, states, steps, i);
    if steps[i].Commit? {
      var tx := states[i].txs[steps[i].id];
      if u in states[i].db.updates {
        RequestMoves(e, tx.op, tx.prepared.value.at, states[i].db, u);
      } else {
        RequestCreates(e, tx.op, tx.prepared.value.at, states[i].db, u);
      }
      assert MovedBy(e, states, steps, i, tx.op, tx.prepared.value.at, u);
    }
  }

  /** What the request of a step makes of an update that is there before and after it. */
  lemma CommitMoves(e: Env, states: seq<State>, steps: seq<Step>, i: nat, u: UpdateId, op: Op, at: Time)
    requires EncodingFacts(e) && IsRun(e, states, steps) && CommitsAt(states, steps, i, op, at)
    requires u in states[i].db.updates && u in states[i + 1].db.updates
    ensures Moves(e, op, at, u, states[i].db.updates[u], states[i + 1].db.updates[u])
  {
    hide EncodingFacts, DbOk, Ideal, Ready, Enabled, Next, Initial, After, Moves;
    TablesChangeByCommits(e, states, steps, i);
    RequestMoves(e, op, at, states[i].db, u);
  }

  /** A committed start, completion or cancellation is of an update that is there, and stays. */
  lemma TargetStays(e: Env, states: seq<State>, steps: seq<Step>, i: nat, op: Op, at: Time)
    requires EncodingFacts(e) && IsRun(e, states, steps) && CommitsAt(states, steps, i, op, at)
    requires OnRowAndStack(op) || op.Renew?
    ensures op.update in states[i].db.updates && op.update in states[i + 1].db.updates
  {
    hide EncodingFacts, DbOk, PlanRow, Ready, Enabled, Next, Initial;
    TablesChangeByCommits(e, states, steps, i);
    var db := states[i].db;
    if op.update in db.updates {
      RowRequestMoves(e, op, db.updates[op.update], at, GivenBaseline(db.updates[op.update].rows));
    }
  }

  /** A committed completion leaves the update with exactly the status asked for, and announces it. */
  lemma CompletionIsRecorded(
      e: Env, states: seq<State>, steps: seq<Step>, i: nat, u: UpdateId, status: Status, at: Time)
    requires EncodingFacts(e) && IsRun(e, states, steps) && CommitsAt(states, steps, i, Complete(u, status), at)
    ensures u in states[i].db.updates && u in states[i + 1].db.updates
    ensures var row, row' := states[i].db.updates[u], states[i + 1].db.updates[u];
            && row.status == Running && Terminal(status)
            && row'.status == status && row'.events == row.events + [Ended(status)]
  {
    hide EncodingFacts, IsRun, CommitsAt;
    TargetStays(e, states, steps, i, Complete(u, status), at);
    CommitMoves(e, states, steps, i, u, Complete(u, status), at);
  }

  /** The request ends `u` with the status. */
  predicate EndsIt(e: Env, db: Db, op: Op, u: UpdateId, status: Status) {
    if u in db.updates then
      var row := db.updates[u];
      && !Terminal(row.status)
      && (|| op == Complete(u, status)
          || (status == Cancelled && op == Cancel(u))
          || (status == Cancelled && op.Sweep? && u in op.chosen && u.stack in op.stacks
              && (Overdue(e, row, op.readAt) || NeverStarted(e, row, op.readAt))))
    else status == Succeeded && op.ImportDoc? && op.id == u
  }

  /** Step `j` ends `u` with the status: by a completion with it, a cancellation, a sweep, or as an import. */
  ghost predicate EndedBy(e: Env, states: seq<State>, steps: seq<Step>, j: nat, u: UpdateId, status: Status) {
    exists op, at :: CommitsAt(states, steps, j, op, at) && EndsIt(e, states[j].db, op, u, status)
  }

  lemma EndsInStep(e: Env, states: seq<State>, steps: seq<Step>, i: nat, u: UpdateId)
    requires EncodingFacts(e) && IsRun(e, states, steps) && i < |steps| && u in states[i + 1].db.updates
    requires u in states[i].db.updates ==> !Terminal(states[i].db.updates[u].status)
    requires Terminal(states[i + 1].db.updates[u].status)
    ensures EndedBy(e, states, steps, i, u, states[i + 1].db.updates[u].status)
  {
    hide EncodingFacts, Enabled, Next, Initial, CommitsAt, Overdue, NeverStarted;
    StepMoves(e, states, steps, i, u);
    var op, at :| MovedBy(e, states, steps, i, op, at, u);
  }

  lemma SweepAndImportStay(e: Env, op: Op, at: Time, db: Db, u: UpdateId)
    requires Ideal(e, op, at, db).Success?
    requires (op.Sweep? && u in db.updates) || (op.ImportDoc? && op.id == u)
    ensures u in After(db, Ideal(e, op, at, db).value).updates
  {
    hide Orphans, FullRow, Puts, Versions, Latest;
  }

  lemma EndedByLeaves(e: Env, states: seq<State>, steps: seq<Step>, j: nat, u: UpdateId, status: Status)
    requires EncodingFacts(e) && IsRun(e, states, steps) && j < |steps| && EndedBy(e, states, steps, j, u, status)
    ensures u in states[j + 1].db.updates
    ensures Terminal(status) && states[j + 1].db.updates[u].status == status
  {
    hide EncodingFacts, DbOk, Ideal, Ready, Enabled, Next, Initial, After, Overdue, NeverStarted;
    var op, at :| CommitsAt(states, steps, j, op, at) && EndsIt(e, states[j].db, op, u, status);
    TablesChangeByCommits(e, states, steps, j);
    if op.Sweep? || op.ImportDoc? {
      SweepAndImportStay(e, op, at, states[j].db, u);
    } else {
      TargetStays(e, states, steps, j, op, at);
    }
    if u in states[j].db.updates {
      CommitMoves(e, states, steps, j, u, op, at);
    } else {
      RequestCreates(e, op, at, states[j].db, u);
    }
  }

  /**
   * Why an update has the status it ended with: it has it exactly when some earlier step ended it
   * with that status, a completion as asked for, a cancellation or a sweep as cancelled, an import
   * as succeeded.
   */
  lemma {:induction false} EndedWithCause(
      e: Env, states: seq<State>, steps: seq<Step>, i: nat, u: UpdateId, status: Status)
    requires EncodingFacts(e) && IsRun(e, states, steps) && i < |states| && u in states[i].db.updates
    ensures Terminal(status) && states[i].db.updates[u].status == status <==>
            exists j: nat :: j < i && EndedBy(e, states, steps, j, u, status)
  {
    hide EncodingFacts, Enabled, Next, EndedBy;
    if j: nat :| j < i && EndedBy(e, states, steps, j, u, status) {
      EndedByLeaves(e, states, steps, j, u, status);
      EndedForever(e, states, steps, j + 1, i, u);
    }
    if Terminal(status) && states[i].db.updates[u].status == status {
      NothingAtFirst(e, states, steps, u);
      if u in states[i - 1].db.updates && Terminal(states[i - 1].db.updates[u].status) {
        EndedForever(e, states, steps, i - 1, i, u);
        EndedWithCause(e, states, steps, i - 1, u, status);
      } else {
        EndsInStep(e, states, steps, i - 1, u);
      }
    }
  }

  // --------------------------------------------------------------------- stacks

  /** The update rows of some stacks. */
  function RowsOfStacks(db: Db, gone: StackId): map<UpdateId, UpdateRow> {
    map u | u in db.updates && u.stack != gone :: db.updates[u]
  }

  /** What a request on a whole stack makes of the tables, apart from the new row's version. */
  predicate StackMoves(op: Op, at: Time, db: Db, db': Db) {
    match op
    case AddStack(s) => s !in db.active && db' == Db(db.active[s := None], db.updates)
    case Create(s, _, id) =>
      && s in db.active && db.active[s].None? && id in db'.updates
      && Appears(op, at, id, db'.updates[id])
      && db' == Db(db.active[s := Some(id)], db.updates[id := db'.updates[id]])
    case ImportDoc(s, _, _, id) =>
      && s in db.active && db.active[s].None? && id in db'.updates
      && Appears(op, at, id, db'.updates[id])
      && db' == Db(db.active, db.updates[id := db'.updates[id]])
    case Delete(s, force) =>
      && s in db.active && (force || db.active[s].None?)
      && db' == Db(db.active - {s}, RowsOfStacks(db, s))
    case _ => true
  }

  lemma StackRequestMoves(e: Env, op: Op, at: Time, db: Db)
    requires FreshId(db, op) && Ideal(e, op, at, db).Success?
    ensures StackMoves(op, at, db, After(db, Ideal(e, op, at, db).value))
  {
    hide PlanRow, Versions, Latest, OrphanKeys, Populated, SweepChange, Appears, NextVersion, CodeUnits;
    var c := Ideal(e, op, at, db).value;
    if op.Create? || op.ImportDoc? {
      assert op.id in After(db, c).updates;
      RequestCreates(e, op, at, db, op.id);
      assert db.updates + c.rows == db.updates[op.id := c.rows[op.id]];
    }
    if op.AddStack? { assert db.updates + map[] == db.updates; }
    if op.Create? { assert db.active + c.active == db.active[op.stack := Some(op.id)]; }
    if op.ImportDoc? { assert db.active + map[] == db.active; }
    if op.AddStack? { assert db.active + c.active == db.active[op.stack := None]; }
  }

  /**
   * A committed addition adds an empty stack, a creation one update that is then the active one, an
   * import one ended update, and a deletion takes the stack with all its updates and no other.
   */
  lemma StacksMove(e: Env, states: seq<State>, steps: seq<Step>, i: nat, op: Op, at: Time)
    requires EncodingFacts(e) && IsRun(e, states, steps) && CommitsAt(states, steps, i, op, at)
    ensures StackMoves(op, at, states[i].db, states[i + 1].db)
  {
    hide EncodingFacts, DbOk, Ideal, Ready, Enabled, Next, Initial, After, StackMoves;
    TablesChangeByCommits(e, states, steps, i);
    StackRequestMoves(e, op, at, states[i].db);
  }
}
