/** Leases against the sweep, and the lifecycle events of an update, over whole runs. */
module LeasesAndEvents {
  import opened Wrappers
  import opened UpdateModel
  import opened UpdatePlans
  import opened Lifecycle
  import opened Transactions
  import opened Runs
  import opened RunTheorems
  import opened LifecycleRuns
  import JournalStore

  // --------------------------------------------------------------------- one state

  lemma RenewalIsExact(e: Env, op: Op, row: UpdateRow, at: Time)
    requires op.Renew?
    ensures var outcome := PlanRow(e, op, row, at, NoBaseline);
            && (outcome.Success? <==>
                  row.status == Running && row.token == Some(op.seen) && row.lease.Some? && row.lease.value > at)
            && (outcome.Success? ==>
                  outcome.value == NO_CHANGE.(
                    rows := map[op.update := row.(lease := Some(op.readAt + Seconds(e, op.duration)))]))
  {
  }

  /** On one state a renewal and a cancellation for expiry are never both enabled. */
  lemma RenewalOrExpiry(e: Env, op: Op, row: UpdateRow, at: Time, readAt: Time)
    requires op.Renew? && PlanRow(e, op, row, at, NoBaseline).Success? && readAt <= at
    ensures !Expired(e, row, readAt) && !Stale(e, row, readAt)
  {
  }

  // --------------------------------------------------------------------- over a run

  /** The lease of `u` is still `lease`, or the update has ended or is gone. */
  predicate HeldOrOver(s: State, u: UpdateId, lease: Time) {
    if u in s.db.updates then
      Terminal(s.db.updates[u].status)
      || (s.db.updates[u].status == Running && s.db.updates[u].lease == Some(lease))
    else u in s.gone
  }

  predicate RowHeldOrOver(row: UpdateRow, lease: Time) {
    Terminal(row.status) || (row.status == Running && row.lease == Some(lease))
  }

  lemma RowRequestKeepsLease(e: Env, op: Op, row: UpdateRow, at: Time, base: Baseline, lease: Time)
    requires (OnRow(op) || OnRowAndStack(op)) && !op.Renew? && PlanRow(e, op, row, at, base).Success?
    requires RowHeldOrOver(row, lease) && op.update in PlanRow(e, op, row, at, base).value.rows
    ensures RowHeldOrOver(PlanRow(e, op, row, at, base).value.rows[op.update], lease)
  {
    hide JournalStore.InsertRows, JournalStore.Flushed, CodeUnits, NextVersion, Edited;
  }

  /** Only a renewal of the update itself moves its lease while it runs. */
  lemma RequestKeepsLease(e: Env, op: Op, at: Time, db: Db, u: UpdateId, lease: Time)
    requires EncodingFacts(e) && DbOk(db) && FreshId(db, op) && Ideal(e, op, at, db).Success?
    requires !(op.Renew? && op.update == u) && u in db.updates && RowHeldOrOver(db.updates[u], lease)
    ensures var after := After(db, Ideal(e, op, at, db).value);
            if u in after.updates then RowHeldOrOver(after.updates[u], lease)
            else u in Dropped(db, Ideal(e, op, at, db).value)
  {
    hide PlanRow, RowOk, AllVersionsOk, EncodingFacts, DbOk, Versions, SaveDoc, Latest, OrphanKeys, Populated;
    if OnRow(op) || OnRowAndStack(op) {
      if op.update in db.updates { RowRequestEffect(e, op, at, db, u, lease); }
    } else if op.ImportDoc? {
      ImportWritesItsOwn(e, op, at, db);
    }
  }

  lemma ImportWritesItsOwn(e: Env, op: Op, at: Time, db: Db)
    requires op.ImportDoc? && Ideal(e, op, at, db).Success?
    ensures Ideal(e, op, at, db).value.rows.Keys == {op.id} && Ideal(e, op, at, db).value.dropped.None?
  {
    hide Versions, Latest, FullRow, Puts;
  }

  lemma RowRequestEffect(e: Env, op: Op, at: Time, db: Db, u: UpdateId, lease: Time)
    requires EncodingFacts(e) && (OnRow(op) || OnRowAndStack(op)) && op.update in db.updates
    requires Ideal(e, op, at, db).Success?
    requires !(op.Renew? && op.update == u) && u in db.updates && RowHeldOrOver(db.updates[u], lease)
    ensures var after := After(db, Ideal(e, op, at, db).value);
            u in after.updates && RowHeldOrOver(after.updates[u], lease)
  {
    hide PlanRow, EncodingFacts, RowOk;
    var row, base := db.updates[op.update], GivenBaseline(db.updates[op.update].rows);
    var c := Ideal(e, op, at, db).value;
    if OnRow(op) {
      RowOpEffect(e, op, row, at, base);
    } else {
      LifecycleOpEffect(e, op, row, at, base);
    }
    if op.update == u && u in c.rows { RowRequestKeepsLease(e, op, row, at, base, lease); }
  }

  /** Step `k` commits a renewal of `u`. */
  predicate Renews(states: seq<State>, steps: seq<Step>, k: nat, u: UpdateId)
    requires k < |steps| && k < |states|
  {
    && steps[k].Commit? && steps[k].id in states[k].txs
    && states[k].txs[steps[k].id].op.Renew? && states[k].txs[steps[k].id].op.update == u
  }

  lemma {:induction false} LeaseIsKept(
      e: Env, states: seq<State>, steps: seq<Step>, i: nat, j: nat, u: UpdateId, lease: Time)
    requires EncodingFacts(e) && IsRun(e, states, steps) && i <= j < |states|
    requires HeldOrOver(states[i], u, lease)
    requires forall k: nat :: i <= k < j ==> !Renews(states, steps, k, u)
    ensures HeldOrOver(states[j], u, lease)
  {
    hide EncodingFacts, DbOk, PlanWith, After, Plan, Ready, Enabled, Next, Renews, Initial;
    if i < j {
      LeaseIsKept(e, states, steps, i, j - 1, u, lease);
      LeaseStep(e, states, steps, j - 1, u, lease);
    }
  }

  lemma LeaseStep(e: Env, states: seq<State>, steps: seq<Step>, k: nat, u: UpdateId, lease: Time)
    requires EncodingFacts(e) && IsRun(e, states, steps) && k < |steps|
    requires HeldOrOver(states[k], u, lease) && !Renews(states, steps, k, u)
    ensures HeldOrOver(states[k + 1], u, lease)
  {
    hide EncodingFacts, DbOk, PlanWith, After, Plan, Ready, Dropped;
    TablesChangeByCommits(e, states, steps, k);
    assert states[k].gone <= states[k + 1].gone;
    if u !in states[k].db.updates {
      GoneForever(e, states, steps, k, u);
    } else if steps[k].Commit? {
      var tx := states[k].txs[steps[k].id];
      RequestKeepsLease(e, tx.op, tx.prepared.value.at, states[k].db, u, lease);
    }
  }

  /** The lease a committed renewal leaves behind. */
  lemma RenewalSetsLease(e: Env, states: seq<State>, steps: seq<Step>, i: nat, u: UpdateId)
    requires EncodingFacts(e) && IsRun(e, states, steps) && i < |steps| && Renews(states, steps, i, u)
    ensures var op := states[i].txs[steps[i].id].op;
            HeldOrOver(states[i + 1], u, op.readAt + Seconds(e, op.duration))
  {
    hide EncodingFacts, DbOk, PlanRow, Plan, Ready, Enabled, Next, Initial;
    TablesChangeByCommits(e, states, steps, i);
    var tx := states[i].txs[steps[i].id];
    RenewalIsExact(e, tx.op, states[i].db.updates[u], tx.prepared.value.at);
    RenewIgnoresBase(e, tx.op, states[i].db.updates[u], tx.prepared.value.at,
        GivenBaseline(states[i].db.updates[u].rows));
  }

  lemma RenewIgnoresBase(e: Env, op: Op, row: UpdateRow, at: Time, base: Baseline)
    requires op.Renew?
    ensures PlanRow(e, op, row, at, base) == PlanRow(e, op, row, at, NoBaseline)
  {
  }

  /** Step `j` commits a sweep that locked the stack of `u` and whose statements reach `u`. */
  predicate SweepReaches(states: seq<State>, steps: seq<Step>, j: nat, u: UpdateId)
    requires j < |steps| && j < |states|
  {
    && steps[j].Commit? && steps[j].id in states[j].txs
    && var op := states[j].txs[steps[j].id].op;
    && op.Sweep? && u in op.chosen && u.stack in op.stacks
  }

  /** What a committed sweep does to a running update it reaches. */
  lemma SweepOfRunning(e: Env, states: seq<State>, steps: seq<Step>, j: nat, u: UpdateId)
    requires EncodingFacts(e) && IsRun(e, states, steps) && j < |steps| && SweepReaches(states, steps, j, u)
    requires u in states[j].db.updates && states[j].db.updates[u].status == Running
    ensures var sweep, row := states[j].txs[steps[j].id].op, states[j].db.updates[u];
            && u in states[j + 1].db.updates
            && states[j + 1].db.updates[u] == if Expired(e, row, sweep.readAt) then Swept(e, row, sweep.readAt) else row
  {
    hide EncodingFacts, DbOk, Ready, Enabled, Next, Initial, Expired;
    TablesChangeByCommits(e, states, steps, j);
  }

  /**
   * A running update that a sweep reaches is cancelled exactly when the lease of its last renewal
   * ran out more than the grace time before the sweep read its clock. A renewal that asks for a
   * positive time and reads its clock no more than the grace time before the sweep always saves it.
   */
  lemma SweepCancelsExactly(e: Env, states: seq<State>, steps: seq<Step>, i: nat, j: nat, u: UpdateId)
    requires EncodingFacts(e) && IsRun(e, states, steps) && i < j < |steps|
    requires Renews(states, steps, i, u) && forall k: nat :: i < k < j ==> !Renews(states, steps, k, u)
    requires SweepReaches(states, steps, j, u)
    requires u in states[j].db.updates && states[j].db.updates[u].status == Running
    ensures var renewal, sweep := states[i].txs[steps[i].id].op, states[j].txs[steps[j].id].op;
            var lease := renewal.readAt + Seconds(e, renewal.duration);
            && u in states[j + 1].db.updates
            && (states[j + 1].db.updates[u].status == Cancelled <==> lease < sweep.readAt - e.graceSeconds)
            && (states[j + 1].db.updates[u].status != Cancelled ==>
                  states[j + 1].db.updates[u] == states[j].db.updates[u])
            && ((renewal.duration.Some? ==> renewal.duration.value > 0)
                && sweep.readAt <= renewal.readAt + e.graceSeconds
                ==> states[j + 1].db.updates[u].status == Running)
  {
    hide EncodingFacts, Enabled, Next, Initial;
    var renewal := states[i].txs[steps[i].id].op;
    RenewalSetsLease(e, states, steps, i, u);
    LeaseIsKept(e, states, steps, i + 1, j, u, renewal.readAt + Seconds(e, renewal.duration));
    SweepOfRunning(e, states, steps, j, u);
  }

  // --------------------------------------------------------------------- saves under a lease

  /** Step `g` grants `u` the lease: by a start, or by a renewal. */
  ghost predicate Grants(e: Env, states: seq<State>, steps: seq<Step>, g: nat, u: UpdateId, lease: Time) {
    exists op, at :: CommitsAt(states, steps, g, op, at)
      && ((op.Start? && op.update == u && lease == at + e.leaseSeconds)
          || (op.Renew? && op.update == u && lease == op.readAt + Seconds(e, op.duration)))
  }

  /** Step `g` is the last before `i` that grants `u` a lease. */
  ghost predicate LastGrant(e: Env, states: seq<State>, steps: seq<Step>, g: nat, i: nat, u: UpdateId, lease: Time) {
    && g < i && Grants(e, states, steps, g, u, lease)
    && forall k: nat, other: Time :: g < k < i ==> !Grants(e, states, steps, k, u, other)
  }

  lemma GrantIsHeld(e: Env, states: seq<State>, steps: seq<Step>, g: nat, u: UpdateId, lease: Time)
    requires EncodingFacts(e) && IsRun(e, states, steps) && g < |steps| && Grants(e, states, steps, g, u, lease)
    ensures u in states[g + 1].db.updates && states[g + 1].db.updates[u].lease == Some(lease)
  {
    hide EncodingFacts, Enabled, Next, Initial, CommitsAt, Seconds;
    var op, at :| CommitsAt(states, steps, g, op, at)
      && ((op.Start? && op.update == u && lease == at + e.leaseSeconds)
          || (op.Renew? && op.update == u && lease == op.readAt + Seconds(e, op.duration)));
    TargetStays(e, states, steps, g, op, at);
    CommitMoves(e, states, steps, g, u, op, at);
  }

  /** A step that leaves `u` running grants the lease it then has, or leaves it the one it had. */
  lemma GrantedOrKept(e: Env, states: seq<State>, steps: seq<Step>, p: nat, u: UpdateId)
    requires EncodingFacts(e) && IsRun(e, states, steps) && p < |steps| && u in states[p + 1].db.updates
    requires states[p + 1].db.updates[u].status == Running
    ensures || (states[p + 1].db.updates[u].lease.Some?
                && Grants(e, states, steps, p, u, states[p + 1].db.updates[u].lease.value))
            || (u in states[p].db.updates && states[p].db.updates[u].status == Running
                && states[p].db.updates[u].lease == states[p + 1].db.updates[u].lease)
  {
    hide EncodingFacts, Enabled, Next, Initial, CommitsAt, Seconds, Overdue, NeverStarted;
    StepMoves(e, states, steps, p, u);
    if steps[p].Commit? {
      var op, at :| MovedBy(e, states, steps, p, op, at, u);
    }
  }

  /** The lease of a running update is the last one granted to it. */
  lemma {:induction false} LeaseIsLastGranted(e: Env, states: seq<State>, steps: seq<Step>, i: nat, u: UpdateId)
    requires EncodingFacts(e) && IsRun(e, states, steps) && i < |states|
    requires u in states[i].db.updates && states[i].db.updates[u].status == Running
    ensures states[i].db.updates[u].lease.Some?
    ensures exists g: nat :: LastGrant(e, states, steps, g, i, u, states[i].db.updates[u].lease.value)
  {
    hide EncodingFacts, Enabled, Next, Initial, Grants;
    NothingAtFirst(e, states, steps, u);
    var p := i - 1;
    var row := states[i].db.updates[u];
    GrantedOrKept(e, states, steps, p, u);
    forall other: Time | Grants(e, states, steps, p, u, other) ensures row.lease == Some(other) {
      GrantIsHeld(e, states, steps, p, u, other);
    }
    if row.lease.Some? && Grants(e, states, steps, p, u, row.lease.value) {
      assert LastGrant(e, states, steps, p, i, u, row.lease.value);
    } else {
      LeaseIsLastGranted(e, states, steps, p, u);
      var g: nat :| LastGrant(e, states, steps, g, p, u, row.lease.value);
      assert LastGrant(e, states, steps, g, i, u, row.lease.value);
    }
  }

  /** The request writes checkpoints or journal rows, and so needs a lease. */
  predicate NeedsLease(op: Op) {
    op.Patch? || op.Verbatim? || op.Delta? || (op.Journal? && op.batch != [])
  }

  lemma SaveNeedsLease(e: Env, op: Op, at: Time, db: Db)
    requires NeedsLease(op) && Ideal(e, op, at, db).Success?
    ensures op.update in db.updates
    ensures var row := db.updates[op.update];
            row.status == Running && row.token.Some? && (row.lease.Some? ==> at <= row.lease.value)
  {
    hide JournalStore.InsertRows, JournalStore.Flushed, CodeUnits, NextVersion, Edited;
  }

  /**
   * An expired lease stops every write: whatever save or journal batch is committed was decided no
   * later than the lease last granted to its update, by the start or by the last committed renewal.
   */
  lemma SavesAreLeased(e: Env, states: seq<State>, steps: seq<Step>, i: nat, op: Op, at: Time)
    requires EncodingFacts(e) && IsRun(e, states, steps) && CommitsAt(states, steps, i, op, at) && NeedsLease(op)
    ensures exists g: nat, lease: Time :: LastGrant(e, states, steps, g, i, op.update, lease) && at <= lease
  {
    hide EncodingFacts, DbOk, Ideal, Ready, Enabled, Next, Initial, After, LastGrant;
    TablesChangeByCommits(e, states, steps, i);
    SaveNeedsLease(e, op, at, states[i].db);
    LeaseIsLastGranted(e, states, steps, i, op.update);
  }

  // --------------------------------------------------------------------- how far a lease reaches

  /** No lease reaches further than the default time from `now`. */
  ghost predicate Bounded(e: Env, db: Db, now: Time) {
    forall u <- db.updates :: RowBounded(e, db.updates[u], now)
  }

  predicate RowBounded(e: Env, row: UpdateRow, now: Time) {
    row.lease.Some? ==> row.lease.value <= now + e.leaseSeconds
  }

  predicate ReadBy(op: Op, now: Time) {
    op.Renew? ==> op.readAt <= now
  }

  lemma RowRequestBounds(e: Env, op: Op, row: UpdateRow, at: Time, base: Baseline, now: Time)
    requires (OnRow(op) || OnRowAndStack(op)) && PlanRow(e, op, row, at, base).Success?
    requires RowBounded(e, row, now) && at <= now && ReadBy(op, now)
    ensures forall u <- PlanRow(e, op, row, at, base).value.rows ::
      RowBounded(e, PlanRow(e, op, row, at, base).value.rows[u], now)
  {
    hide JournalStore.InsertRows, JournalStore.Flushed, CodeUnits, NextVersion, Edited;
  }

  lemma RequestBounds(e: Env, op: Op, at: Time, db: Db, now: Time)
    requires Ideal(e, op, at, db).Success? && Bounded(e, db, now) && at <= now && ReadBy(op, now)
    ensures Bounded(e, After(db, Ideal(e, op, at, db).value), now)
  {
    hide PlanRow, Orphans, Versions, FullRow, Puts;
    if OnRow(op) || OnRowAndStack(op) {
      if op.update in db.updates {
        RowRequestBounds(e, op, db.updates[op.update], at, GivenBaseline(db.updates[op.update].rows), now);
      }
    }
  }

  lemma {:induction false} ReadingsArePast(e: Env, states: seq<State>, steps: seq<Step>, i: nat, t: TxId)
    requires IsRun(e, states, steps) && i < |states| && t in states[i].txs
    ensures ReadBy(states[i].txs[t].op, states[i].now)
  {
    hide Plan, Ready, BaseIsGiven, MayRequest, After;
    if i > 0 {
      assert states[i - 1 + 1] == Next(e, states[i - 1], steps[i - 1]);
      if t in states[i - 1].txs { ReadingsArePast(e, states, steps, i - 1, t); }
    }
  }

  lemma {:induction false} LeasesAreBounded(e: Env, states: seq<State>, steps: seq<Step>, i: nat)
    requires EncodingFacts(e) && IsRun(e, states, steps) && i < |states|
    ensures Bounded(e, states[i].db, states[i].now)
  {
    hide EncodingFacts, Ideal, DbOk, After, Plan, Ready, BaseIsGiven, MayRequest, RowBounded;
    if i > 0 {
      LeasesAreBounded(e, states, steps, i - 1);
      TablesChangeByCommits(e, states, steps, i - 1);
      var s, t := states[i - 1], states[i - 1 + 1];
      assert t == Next(e, s, steps[i - 1]);
      if steps[i - 1].Commit? {
        var tx := s.txs[steps[i - 1].id];
        ReadingsArePast(e, states, steps, i - 1, steps[i - 1].id);
        RequestBounds(e, tx.op, tx.prepared.value.at, s.db, s.now);
      }
      BoundedLater(e, t.db, s.now, t.now);
    }
  }

  lemma BoundedLater(e: Env, db: Db, now: Time, later: Time)
    requires Bounded(e, db, now) && now <= later
    ensures Bounded(e, db, later)
  {
  }

  /**
   * In every state of every run a lease belongs to a running update with a token, and it never
   * reaches further than the default time from now, however long the renewals asked for.
   */
  lemma LeaseWithinDefault(e: Env, states: seq<State>, steps: seq<Step>, i: nat, u: UpdateId)
    requires EncodingFacts(e) && IsRun(e, states, steps) && i < |states| && u in states[i].db.updates
    ensures var row := states[i].db.updates[u];
            && (row.lease.Some? <==> row.status == Running) && (row.token.Some? <==> row.status == Running)
            && (row.lease.Some? ==> row.lease.value <= states[i].now + e.leaseSeconds)
  {
    hide EncodingFacts, IsRun, LocksOk, IdsOk, PreparedOk, DoomedOk, PutsOk, Serial, ActiveOk, AllVersionsOk, RowsOk;
    At(e, states, steps, i);
    LeasesAreBounded(e, states, steps, i);
    assert RowOk(u, states[i].db.updates[u]);
  }

  /** A cycle that selects everything leaves nothing expired or stale as of its clock reading. */
  lemma CycleLeavesNone(e: Env, db: Db, now: Time, u: UpdateId)
    requires Owned(db) && u in db.updates
    ensures var after := After(db, SweepChange(e, db, db.active.Keys, db.updates.Keys, now)).updates;
            && u in after && !Expired(e, after[u], now) && !Stale(e, after[u], now)
            && (after[u] != db.updates[u] ==> Expired(e, db.updates[u], now) || Stale(e, db.updates[u], now))
  {
    assert u in Orphans(e, db, db.active.Keys, db.updates.Keys, now) <==>
      Expired(e, db.updates[u], now) || Stale(e, db.updates[u], now);
  }

  // --------------------------------------------------------------------- events

  function Starts(events: seq<Event>): nat {
    if events == [] then 0 else Starts(events[..|events| - 1]) + if events[|events| - 1] == Started then 1 else 0
  }

  function Ends(events: seq<Event>): nat {
    if events == [] then 0 else Ends(events[..|events| - 1]) + if events[|events| - 1].Ended? then 1 else 0
  }

  /**
   * In every state of every run an update has announced at most one start and at most one end, the
   * start first; exactly one start if it was started, exactly one end if it was started and has
   * ended, and that end tells the status it ended with.
   */
  lemma OneStartOneEnd(e: Env, states: seq<State>, steps: seq<Step>, i: nat, u: UpdateId)
    requires EncodingFacts(e) && IsRun(e, states, steps) && i < |states| && u in states[i].db.updates
    ensures var row := states[i].db.updates[u];
            && Starts(row.events) == (if row.startedAt.Some? then 1 else 0)
            && Ends(row.events) <= 1
            && (row.startedAt.Some? ==> row.events[0] == Started)
            && (row.startedAt.Some? ==> Ends(row.events) == if Terminal(row.status) then 1 else 0)
            && (forall event <- row.events :: event.Ended? ==> event.status == row.status && Terminal(row.status))
  {
    hide EncodingFacts, IsRun, LocksOk, IdsOk, PreparedOk, DoomedOk, PutsOk, Serial, ActiveOk, AllVersionsOk, RowsOk;
    At(e, states, steps, i);
    var row := states[i].db.updates[u];
    assert RowOk(u, row);
    assert Starts([]) == 0 && Ends([]) == 0;
    if row.events != [] {
      assert row.events[..|row.events| - 1] == (if |row.events| == 2 then [Started] else []);
      assert [Started][..0] == [];
      assert Starts([Started]) == 1 && Ends([Started]) == 0;
    }
  }
}
