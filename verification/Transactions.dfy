/**
 * Concurrent requests as steps of a state machine: a transaction takes row and advisory locks one
 * at a time, computes its change under them, puts its blobs one at a time and commits, or aborts
 * at any point. Blobs put by an aborted transaction stay, deletes of superseded blobs come
 * arbitrarily late, and every replica keeps its own cache of base documents.
 */
module Transactions {
  import opened Wrappers
  import opened UpdateModel
  import opened UpdatePlans
  import opened Lifecycle
  import JournalStore

  type TxId = nat

  datatype Lock = StackLock(stack: StackId) | UpdateLock(update: UpdateId) | CleanupLock

  datatype Prepared = Prepared(at: Time, change: Change, put: set<Key>)

  datatype Tx = Tx(op: Op, replica: nat, held: set<Lock>, waiting: Option<Lock>, prepared: Option<Prepared>)

  /** One replica's cache entry for one update. */
  datatype Slot = Slot(replica: nat, update: UpdateId)

  datatype Committed = Committed(op: Op, at: Time)

  /**
   * `doomed` holds the keys that committed transactions left to be deleted. `used`, `gone` and
   * `log` are history: every id handed out, the updates deleted with their stack, and the commits.
   */
  datatype State = State(
    now: Time,
    db: Db,
    blobs: map<Key, Bytes>,
    doomed: set<Key>,
    txs: map<TxId, Tx>,
    cache: map<Slot, Doc>,
    used: set<UpdateId>,
    gone: set<UpdateId>,
    log: seq<Committed>)

  datatype Step =
    | Tick(to: Time)
    | Begin(id: TxId, op: Op, replica: nat)
    | Request(id: TxId, lock: Lock)
    | Grant(id: TxId)
    | Prepare(id: TxId)
    | PutBlob(id: TxId, key: Key)
    | Commit(id: TxId)
    | Abort(id: TxId)
    | LateDelete(key: Key)
    | Evict(slot: Slot)

  // --------------------------------------------------------------------- lock order

  predicate WantsStack(op: Op, s: StackId) {
    match op
    case AddStack(x) => x == s
    case Create(x, _, _) => x == s
    case ImportDoc(x, _, _, _) => x == s
    case Delete(x, _) => x == s
    case Sweep(stacks, _, _) => s in stacks
    case _ => OnRowAndStack(op) && op.update.stack == s
  }

  predicate WantsUpdate(op: Op, u: UpdateId) {
    match op
    case AddStack(_) => false
    case Create(_, _, _) => false
    case ImportDoc(_, _, _, _) => false
    case Delete(s, _) => u.stack == s
    case Sweep(_, chosen, _) => u in chosen
    case _ => op.update == u
  }

  /** Stack rows in ascending order, then update rows under their stack's lock, then the cleanup lock. */
  predicate MayRequest(op: Op, held: set<Lock>, l: Lock) {
    match l
    case StackLock(s) => WantsStack(op, s) && forall h <- held :: h.StackLock? && h.stack < s
    case UpdateLock(u) => WantsUpdate(op, u) && CleanupLock !in held && (OnRow(op) || StackLock(u.stack) in held)
    case CleanupLock => op.Delete? && StackLock(op.stack) in held
  }

  predicate HasKeys(db: Db, s: StackId) {
    StackKeys(db, s) != {}
  }

  /** The locks a request holds when it reads what it decides on. */
  ghost predicate Ready(db: Db, op: Op, held: set<Lock>) {
    match op
    case AddStack(s) => StackLock(s) in held
    case Create(s, _, _) => StackLock(s) in held
    case ImportDoc(s, _, _, _) => StackLock(s) in held
    case Delete(s, _) =>
      && StackLock(s) in held
      && (forall u <- db.updates :: u.stack == s ==> UpdateLock(u) in held)
      && (HasKeys(db, s) ==> CleanupLock in held)
    case Sweep(stacks, chosen, _) =>
      forall u <- chosen :: u.stack in stacks && StackLock(u.stack) in held && UpdateLock(u) in held
    case _ => UpdateLock(op.update) in held && (OnRowAndStack(op) ==> StackLock(op.update.stack) in held)
  }

  // --------------------------------------------------------------------- base documents

  /** The document a flush of `u` starts from, as the blob store gives it now. */
  ghost predicate Loads(e: Env, db: Db, blobs: map<Key, Bytes>, u: UpdateId, d: Doc) {
    if exists r: RowId :: Candidate(db, u.stack, Some(u), r)
    then exists r: RowId :: Latest(db, u.stack, Some(u), r) && ReadDoc(e, RowAt(db, r), blobs) == Some(d)
    else IsEmptyDeployment(d)
  }

  /** The deployment of a stack without checkpoints; only the manifest's time is left open. */
  predicate IsEmptyDeployment(d: Doc) {
    && d.resources == Some([])
    && d.pendingOperations == Some([])
    && d.secretsProviders == Some("passphrase")
  }

  predicate Flushes(op: Op) {
    op.Journal? && JournalStore.HasNonElided(op.batch)
  }

  ghost predicate BaseIsGiven(e: Env, s: State, tx: Tx) {
    Flushes(tx.op) ==>
      var slot := Slot(tx.replica, tx.op.update);
      if slot in s.cache then tx.op.base == s.cache[slot]
      else Loads(e, s.db, s.blobs, tx.op.update, tx.op.base)
  }

  function Cached(s: State, tx: Tx): map<Slot, Doc> {
    if Flushes(tx.op) then s.cache[Slot(tx.replica, tx.op.update) := tx.op.base] else s.cache
  }

  // --------------------------------------------------------------------- steps

  function NewIds(op: Op): set<UpdateId> {
    if op.Create? || op.ImportDoc? then {op.id} else {}
  }

  predicate BeginsNow(op: Op, now: Time) {
    && (op.Renew? ==> op.readAt == now)
    && (op.Sweep? ==> op.readAt == now)
    && (op.Create? || op.ImportDoc? ==> op.id.stack == op.stack)
  }

  ghost predicate Enabled(e: Env, s: State, step: Step) {
    match step
    case Tick(to) => s.now <= to
    case Begin(id, op, _) => id !in s.txs && NewIds(op) !! s.used && BeginsNow(op, s.now)
    case Request(id, l) =>
      && id in s.txs && s.txs[id].waiting.None? && s.txs[id].prepared.None?
      && l !in s.txs[id].held && MayRequest(s.txs[id].op, s.txs[id].held, l)
    case Grant(id) =>
      && id in s.txs && s.txs[id].waiting.Some?
      && forall o <- s.txs :: s.txs[id].waiting.value !in s.txs[o].held
    case Prepare(id) =>
      && id in s.txs && s.txs[id].waiting.None? && s.txs[id].prepared.None?
      && Ready(s.db, s.txs[id].op, s.txs[id].held)
      && BaseIsGiven(e, s, s.txs[id])
      && Plan(e, s.txs[id].op, s.now, s.db, s.blobs).Success?
    case PutBlob(id, key) =>
      id in s.txs && s.txs[id].prepared.Some? && key in s.txs[id].prepared.value.change.puts
    case Commit(id) =>
      && id in s.txs && s.txs[id].prepared.Some?
      && s.txs[id].prepared.value.put == s.txs[id].prepared.value.change.puts.Keys
    case Abort(id) => id in s.txs
    case LateDelete(key) => key in s.doomed
    case Evict(_) => true
  }

  /** The ids that disappear with a dropped stack. */
  function Dropped(db: Db, c: Change): set<UpdateId> {
    set u | u in db.updates && Some(u.stack) == c.dropped
  }

  ghost function Next(e: Env, s: State, step: Step): State
    requires Enabled(e, s, step)
  {
    match step
    case Tick(to) => s.(now := to)
    case Begin(id, op, replica) =>
      s.(txs := s.txs[id := Tx(op, replica, {}, None, None)], used := s.used + NewIds(op))
    case Request(id, l) => s.(txs := s.txs[id := s.txs[id].(waiting := Some(l))])
    case Grant(id) =>
      var tx := s.txs[id];
      s.(txs := s.txs[id := tx.(held := tx.held + {tx.waiting.value}, waiting := None)])
    case Prepare(id) =>
      var tx := s.txs[id];
      var p := Prepared(s.now, Plan(e, tx.op, s.now, s.db, s.blobs).value, {});
      s.(txs := s.txs[id := tx.(prepared := Some(p))], cache := Cached(s, tx))
    case PutBlob(id, key) =>
      var tx := s.txs[id];
      var p := tx.prepared.value;
      s.(
        blobs := s.blobs[key := p.change.puts[key]],
        txs := s.txs[id := tx.(prepared := Some(p.(put := p.put + {key})))])
    case Commit(id) =>
      var tx := s.txs[id];
      var c := tx.prepared.value.change;
      s.(
        db := After(s.db, c),
        doomed := s.doomed + c.dooms,
        gone := s.gone + Dropped(s.db, c),
        txs := s.txs - {id},
        log := s.log + [Committed(tx.op, tx.prepared.value.at)])
    case Abort(id) => s.(txs := s.txs - {id})
    case LateDelete(key) => s.(blobs := s.blobs - {key})
    case Evict(slot) => s.(cache := s.cache - {slot})
  }

  predicate Initial(s: State) {
    && s.db == Db(map[], map[]) && s.txs == map[] && s.cache == map[]
    && s.doomed == {} && s.used == {} && s.gone == {} && s.log == []
  }

  /** A run: states reached by enabled steps. */
  ghost predicate IsRun(e: Env, states: seq<State>, steps: seq<Step>) {
    && |states| == |steps| + 1
    && Initial(states[0])
    && forall i :: 0 <= i < |steps| ==> Enabled(e, states[i], steps[i]) && states[i + 1] == Next(e, states[i], steps[i])
  }

  // --------------------------------------------------------------------- locks

  ghost predicate Exclusive(s: State) {
    forall a <- s.txs, b <- s.txs :: a != b ==> s.txs[a].held !! s.txs[b].held
  }

  /** The locks a transaction holds and waits for follow the order. */
  predicate Orderly(tx: Tx) {
    && (tx.waiting.Some? ==> tx.prepared.None? && tx.waiting.value !in tx.held
                             && MayRequest(tx.op, tx.held, tx.waiting.value))
    && (forall h <- tx.held :: h.UpdateLock? ==> WantsUpdate(tx.op, h.update))
    && (forall h <- tx.held :: h.UpdateLock? && !OnRow(tx.op) ==> StackLock(h.update.stack) in tx.held)
    && (OnRow(tx.op) ==> forall h <- tx.held :: h.UpdateLock?)
    && (CleanupLock in tx.held ==> tx.waiting.None?)
  }

  ghost predicate LocksOk(s: State) {
    Exclusive(s) && forall t <- s.txs :: Orderly(s.txs[t])
  }

  lemma RequestIsOrderly(tx: Tx, l: Lock)
    requires Orderly(tx) && tx.waiting.None? && tx.prepared.None? && l !in tx.held && MayRequest(tx.op, tx.held, l)
    ensures Orderly(tx.(waiting := Some(l)))
  {
  }

  lemma GrantIsOrderly(tx: Tx)
    requires Orderly(tx) && tx.waiting.Some?
    ensures Orderly(tx.(held := tx.held + {tx.waiting.value}, waiting := None))
  {
  }

  /** Every step keeps locks exclusive and taken in order. */
  lemma StepKeepsLocks(e: Env, s: State, step: Step)
    requires LocksOk(s) && Enabled(e, s, step)
    ensures LocksOk(Next(e, s, step))
  {
    hide Plan, Ready, BaseIsGiven, After, MayRequest, WantsUpdate;
    if step.Request? { RequestIsOrderly(s.txs[step.id], step.lock); }
    if step.Grant? { GrantIsOrderly(s.txs[step.id]); }
    if step.Begin? { assert Orderly(Tx(step.op, step.replica, {}, None, None)); }
  }

  // --------------------------------------------------------------------- no deadlock

  /** `a` waits for a lock that `b` holds. */
  predicate WaitsFor(s: State, a: TxId, b: TxId) {
    && a in s.txs && b in s.txs && a != b
    && s.txs[a].waiting.Some? && s.txs[a].waiting.value in s.txs[b].held
  }

  predicate Holds(s: State, t: TxId) {
    t in s.txs && s.txs[t].held != {}
  }

  predicate AwaitsStack(s: State, t: TxId) {
    t in s.txs && s.txs[t].waiting.Some? && s.txs[t].waiting.value.StackLock?
  }

  /** A transaction that holds a lock and waits for a waiting one waits for a stack row. */
  lemma WaitsForStack(s: State, a: TxId, b: TxId)
    requires LocksOk(s) && WaitsFor(s, a, b) && Holds(s, a) && s.txs[b].waiting.Some?
    ensures AwaitsStack(s, a)
  {
  }

  predicate Link(s: State, ts: seq<TxId>, i: nat)
    requires i + 1 < |ts|
  {
    WaitsFor(s, ts[i], ts[i + 1])
  }

  /** A closed chain of transactions, each waiting for the next. */
  ghost predicate IsCycle(s: State, ts: seq<TxId>) {
    && |ts| > 1 && ts[|ts| - 1] == ts[0]
    && forall i: nat :: i + 1 < |ts| ==> Link(s, ts, i)
  }

  /** Along a cycle every transaction holds a lock and waits for a stack row. */
  lemma OnCycle(s: State, ts: seq<TxId>, i: nat)
    requires LocksOk(s) && IsCycle(s, ts) && i + 1 < |ts|
    ensures Holds(s, ts[i]) && AwaitsStack(s, ts[i])
  {
    assert Link(s, ts, i);
    if i > 0 { assert Link(s, ts, i - 1); } else { assert Link(s, ts, |ts| - 2); }
    if i + 2 < |ts| { assert Link(s, ts, i + 1); } else { assert Link(s, ts, 0); }
    WaitsForStack(s, ts[i], ts[i + 1]);
  }

  predicate AwaitsLower(s: State, a: TxId, b: TxId) {
    AwaitsStack(s, a) && AwaitsStack(s, b) && s.txs[a].waiting.value.stack < s.txs[b].waiting.value.stack
  }

  lemma {:induction false} WaitsAscend(s: State, ts: seq<TxId>, i: nat)
    requires LocksOk(s) && IsCycle(s, ts) && 0 < i && i + 1 < |ts|
    ensures AwaitsLower(s, ts[0], ts[i])
  {
    OnCycle(s, ts, i - 1);
    OnCycle(s, ts, i);
    assert Link(s, ts, i - 1);
    assert AwaitsLower(s, ts[i - 1], ts[i]);
    if i > 1 { WaitsAscend(s, ts, i - 1); }
  }

  /** With this lock order no state holds a cycle of waits. */
  lemma NoDeadlock(s: State, ts: seq<TxId>)
    requires LocksOk(s)
    ensures !IsCycle(s, ts)
  {
    if IsCycle(s, ts) {
      var last := |ts| - 2;
      OnCycle(s, ts, 0);
      OnCycle(s, ts, last);
      assert Link(s, ts, last);
      assert AwaitsLower(s, ts[last], ts[0]);
      if last > 0 { WaitsAscend(s, ts, last); }
      assert false;
    }
  }
}
