/**
 * Stack deletion and the blob cleanup queue: concurrent deletions decide under one advisory lock
 * which keys nobody refers to any more, and workers claim, delete, acknowledge and retry them.
 */
module BlobCleanup {
  import opened Wrappers

  type StackId = nat
  type Key = nat
  type TxId = nat
  type WorkerId = nat
  type Time = int

  const CLAIM_SECONDS := 300
  const MAX_RETRY_DELAY_SECONDS := 1024

  /** A queue row. Rows are named by their key, which is unique. */
  datatype Row = Row(attempts: nat, availableAt: Time, claimedBy: Option<WorkerId>, claimedUntil: Option<Time>)

  /** A deletion holding its stack's locks: waiting for the cleanup lock, or decided under it. */
  datatype Deletion = Deletion(stack: StackId, locked: bool, orphans: Option<set<Key>>)

  /** What a worker is doing: nothing, deleting the blob it claimed, or about to report how that went. */
  datatype Phase =
    | Idle
    | Deleting(key: Key, attempts: nat)
    | Done(key: Key, attempts: nat)
    | Broken(key: Key, attempts: nat)

  /** A transaction that writes checkpoints of a stack, with the keys it has put so far. */
  datatype Write = Write(stack: StackId, puts: set<Key>)

  /**
   * `superseded` holds the keys of replaced or dropped baselines whose delete is outstanding. The
   * rest is history: `stranded` the superseded keys whose delete failed, `abandoned` the keys put
   * by writes that aborted, as long as no later write committed them, and `retired` every key that
   * the last reference to was ever given up.
   */
  datatype State = State(
    now: Time,
    refs: map<StackId, set<Key>>,
    queue: map<Key, Row>,
    storage: set<Key>,
    deletions: map<TxId, Deletion>,
    workers: map<WorkerId, Phase>,
    writes: map<TxId, Write>,
    superseded: set<Key>,
    stranded: set<Key>,
    abandoned: set<Key>,
    retired: set<Key>)

  datatype Step =
    | Tick(to: Time)
    | AddStack(stack: StackId)
    | BeginWrite(id: TxId, stack: StackId)
    | Put(id: TxId, key: Key)
    | CommitWrite(id: TxId, replaced: set<Key>)
    | AbortWrite(id: TxId)
    | DeleteSuperseded(key: Key, succeeds: bool)
    | Begin(id: TxId, stack: StackId)
    | LockCleanup(id: TxId)
    | Decide(id: TxId)
    | Commit(id: TxId)
    | Abort(id: TxId)
    | Claim(worker: WorkerId, key: Key)
    | DeleteBlob(worker: WorkerId, succeeds: bool)
    | Ack(worker: WorkerId)
    | AckLost(worker: WorkerId)
    | Retry(worker: WorkerId)
    | Crash(worker: WorkerId)

  predicate ReferredBy(refs: map<StackId, set<Key>>, s: StackId, k: Key) {
    s in refs && k in refs[s]
  }

  ghost predicate Referred(refs: map<StackId, set<Key>>, k: Key) {
    exists s: StackId :: ReferredBy(refs, s, k)
  }

  ghost predicate ReferredElsewhere(refs: map<StackId, set<Key>>, s: StackId, k: Key) {
    exists o: StackId :: o != s && ReferredBy(refs, o, k)
  }

  /** The keys of a stack that no other committed stack refers to. */
  ghost function Orphans(refs: map<StackId, set<Key>>, s: StackId): set<Key>
    requires s in refs
  {
    set k | k in refs[s] && !ReferredElsewhere(refs, s, k)
  }

  function Power(n: nat): nat {
    if n == 0 then 1 else 2 * Power(n - 1)
  }

  /** Seconds until a failed row is tried again. */
  function RetryDelay(attempts: int): nat {
    var steps := if attempts - 1 > 0 then attempts - 1 else 0;
    var exponent := if steps < 10 then steps else 10;
    if Power(exponent) < MAX_RETRY_DELAY_SECONDS then Power(exponent) else MAX_RETRY_DELAY_SECONDS
  }

  predicate Claimable(r: Row, now: Time) {
    r.availableAt <= now && (r.claimedUntil.Some? ==> r.claimedUntil.value < now)
  }

  function Claimed(r: Row, w: WorkerId, now: Time): Row {
    Row(r.attempts + 1, r.availableAt, Some(w), Some(now + CLAIM_SECONDS))
  }

  function Retried(r: Row, attempts: nat, now: Time): Row {
    r.(claimedBy := None, claimedUntil := None, availableAt := now + RetryDelay(attempts))
  }

  function PhaseOf(s: State, w: WorkerId): Phase {
    if w in s.workers then s.workers[w] else Idle
  }

  /** The row is still claimed by the worker. */
  predicate Holds(s: State, w: WorkerId, k: Key) {
    k in s.queue && s.queue[k].claimedBy == Some(w)
  }

  predicate BeingDeleted(s: State, x: StackId) {
    exists t <- s.deletions :: s.deletions[t].stack == x
  }

  predicate BeingWritten(s: State, x: StackId) {
    exists t <- s.writes :: s.writes[t].stack == x
  }

  predicate CleanupHeld(s: State) {
    exists t <- s.deletions :: s.deletions[t].locked
  }

  ghost predicate Enabled(s: State, step: Step) {
    match step
    case Tick(to) => s.now <= to
    case AddStack(x) => x !in s.refs && !BeingDeleted(s, x)
    case BeginWrite(t, x) => t !in s.writes && x in s.refs && !BeingDeleted(s, x)
    case Put(t, k) =>
      && t in s.writes && k !in s.retired && !Referred(s.refs, k)
      && forall o <- s.writes :: o != t ==> k !in s.writes[o].puts
    case CommitWrite(t, replaced) =>
      && t in s.writes && s.writes[t].stack in s.refs && replaced <= s.refs[s.writes[t].stack]
      && forall k <- replaced :: !ReferredElsewhere(s.refs, s.writes[t].stack, k)
    case AbortWrite(t) => t in s.writes
    case DeleteSuperseded(k, _) => k in s.superseded
    case Begin(t, x) => t !in s.deletions && x in s.refs && !BeingDeleted(s, x) && !BeingWritten(s, x)
    case LockCleanup(t) => t in s.deletions && !s.deletions[t].locked && !CleanupHeld(s)
    case Decide(t) =>
      && t in s.deletions && s.deletions[t].orphans.None?
      && s.deletions[t].stack in s.refs
      && (s.refs[s.deletions[t].stack] != {} ==> s.deletions[t].locked)
    case Commit(t) => t in s.deletions && s.deletions[t].orphans.Some?
    case Abort(t) => t in s.deletions
    case Claim(w, k) => PhaseOf(s, w).Idle? && k in s.queue && Claimable(s.queue[k], s.now)
    case DeleteBlob(w, _) => PhaseOf(s, w).Deleting?
    case Ack(w) => PhaseOf(s, w).Done?
    case AckLost(w) => PhaseOf(s, w).Done?
    case Retry(w) => PhaseOf(s, w).Broken?
    case Crash(w) => true
  }

  /** Rows for new keys; a key that is queued already keeps its row. */
  function Queued(queue: map<Key, Row>, keys: set<Key>, now: Time): map<Key, Row> {
    (map k | k in keys :: Row(0, now, None, None)) + queue
  }

  ghost function Next(s: State, step: Step): State
    requires Enabled(s, step)
  {
    match step
    case Tick(to) => s.(now := to)
    case AddStack(x) => s.(refs := s.refs[x := {}])
    case BeginWrite(t, x) => s.(writes := s.writes[t := Write(x, {})])
    case Put(t, k) =>
      var w := s.writes[t];
      s.(writes := s.writes[t := w.(puts := w.puts + {k})], storage := s.storage + {k})
    case CommitWrite(t, replaced) =>
      var w := s.writes[t];
      s.(
        refs := s.refs[w.stack := s.refs[w.stack] - replaced + w.puts],
        writes := s.writes - {t},
        superseded := s.superseded + replaced,
        retired := s.retired + replaced,
        abandoned := s.abandoned - w.puts)
    case AbortWrite(t) => s.(writes := s.writes - {t}, abandoned := s.abandoned + s.writes[t].puts)
    case DeleteSuperseded(k, succeeds) =>
      if succeeds then s.(superseded := s.superseded - {k}, storage := s.storage - {k})
      else s.(superseded := s.superseded - {k}, stranded := s.stranded + {k})
    case Begin(t, x) => s.(deletions := s.deletions[t := Deletion(x, false, None)])
    case LockCleanup(t) => s.(deletions := s.deletions[t := s.deletions[t].(locked := true)])
    case Decide(t) =>
      var d := s.deletions[t];
      s.(deletions := s.deletions[t := d.(orphans := Some(Orphans(s.refs, d.stack)))])
    case Commit(t) =>
      var d := s.deletions[t];
      s.(
        refs := s.refs - {d.stack},
        queue := Queued(s.queue, d.orphans.value, s.now),
        deletions := s.deletions - {t},
        retired := s.retired + d.orphans.value)
    case Abort(t) => s.(deletions := s.deletions - {t})
    case Claim(w, k) =>
      s.(queue := s.queue[k := Claimed(s.queue[k], w, s.now)],
          workers := s.workers[w := Deleting(k, s.queue[k].attempts + 1)])
    case DeleteBlob(w, succeeds) =>
      var p := PhaseOf(s, w);
      if succeeds then s.(storage := s.storage - {p.key}, workers := s.workers[w := Done(p.key, p.attempts)])
      else s.(workers := s.workers[w := Broken(p.key, p.attempts)])
    case Ack(w) =>
      var k := PhaseOf(s, w).key;
      s.(queue := if Holds(s, w, k) then s.queue - {k} else s.queue, workers := s.workers[w := Idle])
    case AckLost(w) => s.(workers := s.workers[w := Broken(PhaseOf(s, w).key, PhaseOf(s, w).attempts)])
    case Crash(w) => s.(workers := s.workers[w := Idle])
    case Retry(w) =>
      var p := PhaseOf(s, w);
      s.(
        queue := if Holds(s, w, p.key) then s.queue[p.key := Retried(s.queue[p.key], p.attempts, s.now)] else s.queue,
        workers := s.workers[w := Idle])
  }

  // --------------------------------------------------------------------- invariants

  /** A decided deletion's orphans are still what it would decide, and it holds the lock if it has keys. */
  ghost predicate DeletionOk(s: State, t: TxId)
    requires t in s.deletions
  {
    var d := s.deletions[t];
    && d.stack in s.refs && !BeingWritten(s, d.stack)
    && (d.orphans.Some? ==> d.orphans.value == Orphans(s.refs, d.stack) && (s.refs[d.stack] != {} ==> d.locked))
  }

  /** One deletion at a time holds the cleanup lock, and one at a time deletes a stack. */
  ghost predicate DeletionsOk(s: State) {
    && (forall t <- s.deletions :: DeletionOk(s, t))
    && (forall a <- s.deletions, b <- s.deletions :: s.deletions[a].locked && s.deletions[b].locked ==> a == b)
    && (forall a <- s.deletions, b <- s.deletions :: s.deletions[a].stack == s.deletions[b].stack ==> a == b)
  }

  /** A key some open write has put. */
  ghost predicate InOpenWrite(s: State, k: Key) {
    exists t <- s.writes :: k in s.writes[t].puts
  }

  /** What nothing leads to any more, or not yet: put by a write that is open or aborted, or superseded. */
  ghost predicate LeftOver(s: State, k: Key) {
    InOpenWrite(s, k) || k in s.abandoned || k in s.superseded || k in s.stranded
  }

  ghost predicate WritesOk(s: State) {
    && (forall t <- s.writes :: s.writes[t].stack in s.refs)
    && (forall a <- s.writes, b <- s.writes :: a != b ==> s.writes[a].puts !! s.writes[b].puts)
  }

  /** What holds of one key. */
  ghost predicate KeyOk(s: State, k: Key) {
    && (Referred(s.refs, k) ==> k in s.storage && k !in s.retired)
    && (InOpenWrite(s, k) || k in s.abandoned ==> k in s.storage && k !in s.retired && !Referred(s.refs, k))
    && (k in s.superseded || k in s.stranded ==> k in s.storage && k in s.retired)
    && (k in s.superseded ==> k !in s.stranded)
    && (k in s.queue ==> k in s.retired && k !in s.superseded && k !in s.stranded)
    && (k in s.storage ==> Referred(s.refs, k) || k in s.queue || LeftOver(s, k))
  }

  ghost predicate KeysOk(s: State) {
    forall k: Key :: KeyOk(s, k)
  }

  /** What a worker handles was queued once, and what it deleted stays deleted. */
  predicate WorkerOk(s: State, p: Phase) {
    !p.Idle? ==>
      && p.key in s.retired && p.key !in s.superseded && p.key !in s.stranded
      && (p.Done? ==> p.key !in s.storage)
  }

  ghost predicate WorkersOk(s: State) {
    forall w <- s.workers :: WorkerOk(s, s.workers[w])
  }

  ghost predicate Inv(s: State) {
    DeletionsOk(s) && WritesOk(s) && KeysOk(s) && WorkersOk(s)
  }

  /** Any committed checkpoints, keys shared between stacks included, and their blobs. */
  ghost predicate Initial(s: State) {
    && s.queue == map[] && s.deletions == map[] && s.workers == map[] && s.writes == map[]
    && s.superseded == {} && s.stranded == {} && s.abandoned == {} && s.retired == {}
    && forall k: Key :: k in s.storage <==> Referred(s.refs, k)
  }

  // --------------------------------------------------------------------- steps keep the invariant

  /** No committed reference to `k` differs between the two, whichever stack `except` leaves out. */
  lemma SameReferences(refs: map<StackId, set<Key>>, refs': map<StackId, set<Key>>, x: StackId)
    requires x in refs && x in refs' && refs'[x] == refs[x]
    requires forall o: StackId, k: Key :: k in refs[x] ==> (ReferredBy(refs', o, k) <==> ReferredBy(refs, o, k))
    ensures Orphans(refs', x) == Orphans(refs, x)
  {
    forall k | k in refs[x] ensures ReferredElsewhere(refs', x, k) <==> ReferredElsewhere(refs, x, k) {
      forall o: StackId | o != x && ReferredBy(refs, o, k) ensures ReferredElsewhere(refs', x, k) {
        assert ReferredBy(refs', o, k);
      }
      forall o: StackId | o != x && ReferredBy(refs', o, k) ensures ReferredElsewhere(refs, x, k) {
        assert ReferredBy(refs, o, k);
      }
    }
  }

  /** How the references change: a write's keys replace others, a stack's keys go, or an empty stack appears. */
  lemma ReferencesAfter(s: State, step: Step, x: StackId, k: Key)
    requires Enabled(s, step)
    ensures ReferredBy(Next(s, step).refs, x, k) <==>
      if step.CommitWrite? && x == s.writes[step.id].stack then
        k in s.writes[step.id].puts || (ReferredBy(s.refs, x, k) && k !in step.replaced)
      else ReferredBy(s.refs, x, k) && !(step.Commit? && x == s.deletions[step.id].stack)
  {
    hide Orphans, Queued;
    if step.AddStack? && x == step.stack { assert x !in s.refs; }
  }

  /** A committed write leaves the references to the keys of a stack that is being deleted alone. */
  lemma WriteLeavesAlone(s: State, step: Step, x: StackId, o: StackId, k: Key)
    requires Inv(s) && Enabled(s, step) && step.CommitWrite?
    requires x in s.refs && k in s.refs[x] && x != s.writes[step.id].stack
    ensures ReferredBy(Next(s, step).refs, o, k) <==> ReferredBy(s.refs, o, k)
  {
    ReferencesAfter(s, step, o, k);
    assert ReferredBy(s.refs, x, k) && KeyOk(s, k);
    assert k !in s.writes[step.id].puts;
    if k in step.replaced { assert ReferredElsewhere(s.refs, s.writes[step.id].stack, k); }
  }

  lemma WriteKeepsDeletions(s: State, step: Step)
    requires Inv(s) && Enabled(s, step) && step.CommitWrite?
    ensures forall t <- Next(s, step).deletions :: DeletionOk(Next(s, step), t)
  {
    hide KeyOk;
    var n := Next(s, step);
    forall t | t in n.deletions ensures DeletionOk(n, t) {
      assert DeletionOk(s, t);
      var d := s.deletions[t];
      forall o: StackId, k: Key | k in s.refs[d.stack] ensures ReferredBy(n.refs, o, k) <==> ReferredBy(s.refs, o, k) {
        WriteLeavesAlone(s, step, d.stack, o, k);
      }
      SameReferences(s.refs, n.refs, d.stack);
    }
  }

  lemma CommitKeepsDeletions(s: State, step: Step)
    requires Inv(s) && Enabled(s, step) && step.Commit?
    ensures forall t <- Next(s, step).deletions :: DeletionOk(Next(s, step), t)
  {
    var t' := Next(s, step);
    var gone := s.deletions[step.id].stack;
    assert DeletionOk(s, step.id);
    forall t | t in t'.deletions ensures DeletionOk(t', t) {
      assert DeletionOk(s, t);
      var d := s.deletions[t];
      if d.orphans.Some? && s.refs[d.stack] != {} {
        assert s.refs[gone] == {};
        forall o: StackId, k: Key | k in s.refs[d.stack]
          ensures ReferredBy(t'.refs, o, k) <==> ReferredBy(s.refs, o, k)
        {}
        SameReferences(s.refs, t'.refs, d.stack);
      }
    }
  }

  lemma AddKeepsDeletions(s: State, step: Step)
    requires Inv(s) && Enabled(s, step) && step.AddStack?
    ensures forall t <- Next(s, step).deletions :: DeletionOk(Next(s, step), t)
  {
    var t' := Next(s, step);
    forall t | t in t'.deletions ensures DeletionOk(t', t) {
      assert DeletionOk(s, t);
      var d := s.deletions[t];
      forall o: StackId, k: Key | k in s.refs[d.stack]
        ensures ReferredBy(t'.refs, o, k) <==> ReferredBy(s.refs, o, k)
      {}
      SameReferences(s.refs, t'.refs, d.stack);
    }
  }

  lemma StepKeepsDeletions(s: State, step: Step)
    requires Inv(s) && Enabled(s, step)
    ensures DeletionsOk(Next(s, step))
  {
    hide Orphans, KeysOk, WorkersOk, DeletionOk, WritesOk, Referred, Queued, ReferredElsewhere;
    if step.CommitWrite? { WriteKeepsDeletions(s, step); }
    else if step.AddStack? { AddKeepsDeletions(s, step); }
    else if step.Commit? { CommitKeepsDeletions(s, step); }
    else {
      var n := Next(s, step);
      forall t | t in n.deletions ensures DeletionOk(n, t) { OtherKeepsDeletion(s, step, t); }
    }
    DeletionsApart(s, step);
  }

  lemma DeletionsApart(s: State, step: Step)
    requires Inv(s) && Enabled(s, step)
    ensures var n := Next(s, step);
            && (forall a <- n.deletions, b <- n.deletions :: n.deletions[a].locked && n.deletions[b].locked ==> a == b)
            && (forall a <- n.deletions, b <- n.deletions :: n.deletions[a].stack == n.deletions[b].stack ==> a == b)
  {
    hide KeysOk, WorkersOk, WritesOk, DeletionOk, Orphans, Queued, Referred, ReferredElsewhere, BeingWritten;
  }

  lemma NoNewWriters(s: State, step: Step, x: StackId)
    requires Enabled(s, step) && !BeingWritten(s, x) && BeingWritten(Next(s, step), x)
    ensures step.BeginWrite? && step.stack == x && !BeingDeleted(s, x)
  {
    hide Orphans, Queued, Referred, ReferredElsewhere;
  }

  /** What any other step leaves of the references and of one deletion. */
  lemma OtherDeletion(s: State, step: Step, t: TxId)
    requires Enabled(s, step) && !step.CommitWrite? && !step.AddStack? && !step.Commit?
    requires t in Next(s, step).deletions
    ensures Next(s, step).refs == s.refs
    ensures var d := Next(s, step).deletions[t];
            if t !in s.deletions then
              d == Deletion(d.stack, false, None) && d.stack in s.refs && !BeingWritten(s, d.stack)
              && step == Begin(t, d.stack)
            else
              || d == s.deletions[t]
              || (d == s.deletions[t].(locked := true))
              || (d == s.deletions[t].(orphans := d.orphans) && d.orphans == Some(Orphans(s.refs, d.stack))
                  && (s.refs[d.stack] != {} ==> d.locked))
  {
    hide Orphans, Queued, Referred, ReferredElsewhere, BeingWritten, BeingDeleted, CleanupHeld;
  }

  lemma OtherKeepsDeletion(s: State, step: Step, t: TxId)
    requires Inv(s) && Enabled(s, step) && !step.CommitWrite? && !step.AddStack? && !step.Commit?
    requires t in Next(s, step).deletions
    ensures DeletionOk(Next(s, step), t)
  {
    hide KeysOk, WorkersOk, WritesOk, Orphans, BeingWritten, Next, Enabled;
    var n := Next(s, step);
    OtherDeletion(s, step, t);
    if t in s.deletions { assert DeletionOk(s, t); }
    var x := n.deletions[t].stack;
    if BeingWritten(n, x) {
      NoNewWriters(s, step, x);
      StackIsBeingDeleted(s, t);
    }
  }

  lemma StackIsBeingDeleted(s: State, t: TxId)
    ensures t in s.deletions ==> BeingDeleted(s, s.deletions[t].stack)
  {
  }

  lemma WritersHaveStacks(s: State, step: Step)
    requires DeletionsOk(s) && WritesOk(s) && Enabled(s, step)
    ensures forall t <- Next(s, step).writes :: Next(s, step).writes[t].stack in Next(s, step).refs
  {
    hide Orphans, Queued, Referred, ReferredElsewhere;
    if step.Commit? { assert DeletionOk(s, step.id); }
  }

  lemma PutsStayApart(s: State, step: Step)
    requires WritesOk(s) && Enabled(s, step)
    ensures var ws := Next(s, step).writes; forall a <- ws, b <- ws :: a != b ==> ws[a].puts !! ws[b].puts
  {
    hide Orphans, Queued, Referred, ReferredElsewhere, BeingDeleted, BeingWritten, CleanupHeld;
  }

  lemma StepKeepsWrites(s: State, step: Step)
    requires Inv(s) && Enabled(s, step)
    ensures WritesOk(Next(s, step))
  {
    hide Next, Enabled, DeletionsOk, KeysOk, WorkersOk;
    WritersHaveStacks(s, step);
    PutsStayApart(s, step);
  }

  lemma ReplacedIsReferred(s: State, step: Step, k: Key)
    requires Enabled(s, step) && step.CommitWrite? && k in step.replaced
    ensures Referred(s.refs, k)
  {
    assert ReferredBy(s.refs, s.writes[step.id].stack, k);
  }

  lemma StepKeepsWorkers(s: State, step: Step)
    requires Inv(s) && Enabled(s, step)
    ensures WorkersOk(Next(s, step))
  {
    hide DeletionsOk, Referred, Orphans, Queued, Claimed, Retried, ReferredElsewhere, WritesOk, InOpenWrite;
    var n := Next(s, step);
    forall w | w in n.workers ensures WorkerOk(n, n.workers[w]) {
      if w in s.workers { assert WorkerOk(s, s.workers[w]); }
      if !n.workers[w].Idle? {
        assert KeyOk(s, n.workers[w].key);
        if step.CommitWrite? && n.workers[w].key in step.replaced { ReplacedIsReferred(s, step, n.workers[w].key); }
      }
    }
  }

  lemma ReferredAfterWrite(s: State, step: Step, k: Key)
    requires Inv(s) && Enabled(s, step) && step.CommitWrite?
    ensures Referred(Next(s, step).refs, k) <==>
      k in s.writes[step.id].puts || (Referred(s.refs, k) && k !in step.replaced)
  {
    hide KeysOk, DeletionsOk, WorkersOk, Orphans;
    var n, x := Next(s, step), s.writes[step.id].stack;
    forall o: StackId
      ensures ReferredBy(n.refs, o, k) <==>
        if o == x then k in s.writes[step.id].puts || (ReferredBy(s.refs, x, k) && k !in step.replaced)
        else ReferredBy(s.refs, o, k)
    {
      ReferencesAfter(s, step, o, k);
    }
    if k in s.writes[step.id].puts { assert ReferredBy(n.refs, x, k); }
    if k !in step.replaced && Referred(s.refs, k) {
      var o: StackId :| ReferredBy(s.refs, o, k);
      assert ReferredBy(n.refs, o, k);
    }
  }

  lemma ReferredAfterDeletion(s: State, step: Step, k: Key)
    requires Inv(s) && Enabled(s, step) && step.Commit?
    ensures Referred(Next(s, step).refs, k) <==> Referred(s.refs, k) && k !in s.deletions[step.id].orphans.value
    ensures k in s.deletions[step.id].orphans.value ==> Referred(s.refs, k)
  {
    hide KeysOk, WorkersOk;
    var n, d := Next(s, step), s.deletions[step.id];
    assert DeletionOk(s, step.id);
    forall o: StackId ensures ReferredBy(n.refs, o, k) <==> ReferredBy(s.refs, o, k) && o != d.stack {
      ReferencesAfter(s, step, o, k);
    }
    if k in d.orphans.value { assert ReferredBy(s.refs, d.stack, k); }
    if Referred(s.refs, k) && k !in d.orphans.value {
      var o: StackId :| ReferredBy(s.refs, o, k);
      if o == d.stack {
        var other: StackId :| other != d.stack && ReferredBy(s.refs, other, k);
        assert ReferredBy(n.refs, other, k);
      } else {
        assert ReferredBy(n.refs, o, k);
      }
    }
  }

  lemma SameReferred(s: State, step: Step, k: Key)
    requires Enabled(s, step) && !step.Commit? && !step.CommitWrite?
    ensures Referred(Next(s, step).refs, k) <==> Referred(s.refs, k)
  {
    forall x: StackId ensures ReferredBy(Next(s, step).refs, x, k) <==> ReferredBy(s.refs, x, k) {
      ReferencesAfter(s, step, x, k);
    }
  }

  /** What the open writes have put after a step. */
  lemma OpenAfter(s: State, step: Step, k: Key)
    requires WritesOk(s) && Enabled(s, step)
    ensures InOpenWrite(Next(s, step), k) <==>
      if step.Put? then InOpenWrite(s, k) || k == step.key
      else InOpenWrite(s, k) && !((step.CommitWrite? || step.AbortWrite?) && k in s.writes[step.id].puts)
  {
    hide Orphans, Queued, Referred, ReferredElsewhere, BeingDeleted, BeingWritten, CleanupHeld;
    var n := Next(s, step);
    if InOpenWrite(s, k) && !((step.CommitWrite? || step.AbortWrite?) && k in s.writes[step.id].puts) {
      var t :| t in s.writes && k in s.writes[t].puts;
      assert k in n.writes[t].puts;
    }
    if step.Put? { assert step.key in n.writes[step.id].puts; }
    if InOpenWrite(n, k) {
      var t :| t in n.writes && k in n.writes[t].puts;
      if t in s.writes { assert k in s.writes[t].puts || (step.Put? && k == step.key); }
    }
  }

  lemma WriteKeepsKey(s: State, step: Step, k: Key)
    requires Inv(s) && Enabled(s, step) && step.CommitWrite?
    ensures KeyOk(Next(s, step), k)
  {
    hide DeletionsOk, WorkersOk, Orphans, Referred, InOpenWrite, ReferredElsewhere;
    ReferredAfterWrite(s, step, k);
    OpenAfter(s, step, k);
    assert KeyOk(s, k);
    if k in step.replaced { ReplacedIsReferred(s, step, k); }
    if k in s.writes[step.id].puts { PutIsOpen(s, step.id, k); }
  }

  lemma PutIsOpen(s: State, t: TxId, k: Key)
    requires t in s.writes && k in s.writes[t].puts
    ensures InOpenWrite(s, k)
  {
  }

  lemma DeletionKeepsKey(s: State, step: Step, k: Key)
    requires Inv(s) && Enabled(s, step) && step.Commit?
    ensures KeyOk(Next(s, step), k)
  {
    hide DeletionsOk, WorkersOk, Orphans, Referred, InOpenWrite, ReferredElsewhere;
    ReferredAfterDeletion(s, step, k);
    OpenAfter(s, step, k);
    assert KeyOk(s, k);
  }

  lemma OtherKeepsKey(s: State, step: Step, k: Key)
    requires Inv(s) && Enabled(s, step) && !step.Commit? && !step.CommitWrite?
    ensures KeyOk(Next(s, step), k)
  {
    hide DeletionsOk, Orphans, Referred, InOpenWrite, ReferredElsewhere, Claimed, Retried, Queued;
    SameReferred(s, step, k);
    OpenAfter(s, step, k);
    assert KeyOk(s, k);
    match step {
      case DeleteBlob(w, _) => assert WorkerOk(s, PhaseOf(s, w));
      case Ack(w) => assert WorkerOk(s, PhaseOf(s, w));
      case AbortWrite(t) => if k in s.writes[t].puts { PutIsOpen(s, t, k); }
      case _ =>
    }
  }

  lemma StepKeepsKeys(s: State, step: Step)
    requires Inv(s) && Enabled(s, step)
    ensures KeysOk(Next(s, step))
  {
    hide KeyOk, Inv;
    forall k: Key ensures KeyOk(Next(s, step), k) {
      if step.Commit? { DeletionKeepsKey(s, step, k); }
      else if step.CommitWrite? { WriteKeepsKey(s, step, k); }
      else { OtherKeepsKey(s, step, k); }
    }
  }

  /** Every step of deletions, writes and workers, in any interleaving, keeps the invariant. */
  lemma StepKeeps(s: State, step: Step)
    requires Inv(s) && Enabled(s, step)
    ensures Inv(Next(s, step))
  {
    hide DeletionsOk, WritesOk, KeysOk, WorkersOk;
    StepKeepsDeletions(s, step);
    StepKeepsWrites(s, step);
    StepKeepsKeys(s, step);
    StepKeepsWorkers(s, step);
  }

  // --------------------------------------------------------------------- over runs

  ghost predicate IsRun(states: seq<State>, steps: seq<Step>) {
    && |states| == |steps| + 1
    && Initial(states[0])
    && forall i :: 0 <= i < |steps| ==> Enabled(states[i], steps[i]) && states[i + 1] == Next(states[i], steps[i])
  }

  lemma {:induction false} RunsAreSafe(states: seq<State>, steps: seq<Step>, i: nat)
    requires IsRun(states, steps) && i < |states|
    ensures Inv(states[i])
  {
    hide Inv;
    if i == 0 {
      InitialIsOk(states[0]);
    } else {
      RunsAreSafe(states, steps, i - 1);
      assert states[i - 1 + 1] == Next(states[i - 1], steps[i - 1]);
      StepKeeps(states[i - 1], steps[i - 1]);
    }
  }

  lemma InitialIsOk(s: State)
    requires Initial(s)
    ensures Inv(s)
  {
  }

  /**
   * In every state of every run, the blob of a committed checkpoint of any stack is stored and
   * its key is not queued for deletion.
   */
  lemma NothingDangles(states: seq<State>, steps: seq<Step>, i: nat, k: Key)
    requires IsRun(states, steps) && i < |states| && Referred(states[i].refs, k)
    ensures k in states[i].storage && k !in states[i].queue
  {
    hide IsRun, DeletionsOk, WritesOk, WorkersOk, Referred;
    RunsAreSafe(states, steps, i);
    assert KeyOk(states[i], k);
  }

  /**
   * A stored blob is neither referred to nor queued exactly when it was put by a write that is
   * still open or by one that aborted and whose key no later write committed, or when it belonged
   * to a superseded baseline whose delete is outstanding or has failed; and these are stored.
   */
  lemma ForgottenExactly(states: seq<State>, steps: seq<Step>, i: nat, k: Key)
    requires IsRun(states, steps) && i < |states|
    ensures var s := states[i];
            k in s.storage && !Referred(s.refs, k) && k !in s.queue <==> LeftOver(s, k)
  {
    hide IsRun, DeletionsOk, WritesOk, WorkersOk, Referred, InOpenWrite;
    RunsAreSafe(states, steps, i);
    assert KeyOk(states[i], k);
  }

  /** Step `j` commits a write that put `k`. */
  predicate CommitsKey(states: seq<State>, steps: seq<Step>, j: nat, k: Key)
    requires j < |steps| && j < |states|
  {
    steps[j].CommitWrite? && steps[j].id in states[j].writes && k in states[j].writes[steps[j].id].puts
  }

  lemma AbandonedStep(s: State, step: Step, k: Key)
    requires Enabled(s, step) && k in s.abandoned
    ensures k in Next(s, step).abandoned
      || (step.CommitWrite? && step.id in s.writes && k in s.writes[step.id].puts)
  {
    hide Orphans, Queued, Referred, ReferredElsewhere;
  }

  /**
   * The blob of an aborted write stays stored, referred to by nothing and queued by nothing, until
   * a later write commits its key, if one ever does.
   */
  lemma {:induction false} AbandonedStays(states: seq<State>, steps: seq<Step>, i: nat, j: nat, k: Key)
    requires IsRun(states, steps) && i <= j < |states| && k in states[i].abandoned
    requires forall m: nat :: i <= m < j ==> !CommitsKey(states, steps, m, k)
    ensures k in states[j].abandoned
    ensures k in states[j].storage && !Referred(states[j].refs, k) && k !in states[j].queue
  {
    hide Enabled, Next, LeftOver, Referred, Initial;
    if i < j {
      AbandonedStays(states, steps, i, j - 1, k);
      AbandonedStep(states[j - 1], steps[j - 1], k);
      assert states[j - 1 + 1] == Next(states[j - 1], steps[j - 1]);
      assert Enabled(states[j - 1], steps[j - 1]) && !CommitsKey(states, steps, j - 1, k);
    }
    AbandonedIsLeft(states[j], k);
    ForgottenExactly(states, steps, j, k);
  }

  lemma AbandonedIsLeft(s: State, k: Key)
    ensures k in s.abandoned || k in s.stranded ==> LeftOver(s, k)
  {
  }

  lemma StrandedStep(s: State, step: Step, k: Key)
    requires Enabled(s, step) && k in s.stranded
    ensures k in Next(s, step).stranded
  {
    hide Orphans, Queued, Referred, ReferredElsewhere;
  }

  /** The blob of a superseded baseline whose delete failed stays stored for ever, with nothing that leads to it. */
  lemma {:induction false} StrandedStays(states: seq<State>, steps: seq<Step>, i: nat, j: nat, k: Key)
    requires IsRun(states, steps) && i <= j < |states| && k in states[i].stranded
    ensures k in states[j].stranded
    ensures k in states[j].storage && !Referred(states[j].refs, k) && k !in states[j].queue
  {
    hide Enabled, Next, LeftOver, Referred, Initial;
    if i < j {
      StrandedStays(states, steps, i, j - 1, k);
      assert Enabled(states[j - 1], steps[j - 1]);
      StrandedStep(states[j - 1], steps[j - 1], k);
      assert states[j - 1 + 1] == Next(states[j - 1], steps[j - 1]);
    }
    AbandonedIsLeft(states[j], k);
    ForgottenExactly(states, steps, j, k);
  }

  /** A deletion queues exactly the keys whose last referring stack it deletes. */
  lemma QueuedWithLastStack(states: seq<State>, steps: seq<Step>, i: nat, k: Key)
    requires IsRun(states, steps) && i < |steps| && steps[i].Commit?
    ensures var gone := states[i].deletions[steps[i].id].stack;
            k in states[i + 1].queue <==>
              k in states[i].queue
              || (ReferredBy(states[i].refs, gone, k) && !ReferredElsewhere(states[i].refs, gone, k))
  {
    hide WritesOk, KeysOk, WorkersOk, ReferredElsewhere;
    RunsAreSafe(states, steps, i);
    assert DeletionOk(states[i], steps[i].id);
    assert states[i + 1] == Next(states[i], steps[i]);
  }

  /** A key leaves the queue only when the worker that still holds its claim acknowledges having deleted the blob. */
  lemma LeavesByHolder(states: seq<State>, steps: seq<Step>, i: nat, k: Key)
    requires IsRun(states, steps) && i < |steps| && k in states[i].queue && k !in states[i + 1].queue
    ensures steps[i].Ack? && Holds(states[i], steps[i].worker, k)
    ensures PhaseOf(states[i], steps[i].worker).Done? && PhaseOf(states[i], steps[i].worker).key == k
    ensures k !in states[i].storage
  {
    hide DeletionsOk, WritesOk, KeysOk, Enabled, Next;
    RunsAreSafe(states, steps, i);
    assert Enabled(states[i], steps[i]) && states[i + 1] == Next(states[i], steps[i]);
    LeavesByAck(states[i], steps[i], k);
    assert WorkerOk(states[i], PhaseOf(states[i], steps[i].worker));
  }

  lemma LeavesByAck(s: State, step: Step, k: Key)
    requires Enabled(s, step) && k in s.queue && k !in Next(s, step).queue
    ensures step.Ack? && Holds(s, step.worker, k)
    ensures PhaseOf(s, step.worker).Done? && PhaseOf(s, step.worker).key == k
  {
    hide Orphans, Referred, ReferredElsewhere, Claimed, Retried, BeingDeleted, BeingWritten, CleanupHeld;
  }

  /** The key a step may delete the blob of, worker or writer. */
  function DeletedKey(s: State, step: Step): Option<Key> {
    match step
    case DeleteBlob(w, _) => if PhaseOf(s, w).Idle? then None else Some(PhaseOf(s, w).key)
    case DeleteSuperseded(k, _) => Some(k)
    case _ => None
  }

  /** Whatever is deleted from the store, by a worker or behind a save, no committed checkpoint refers to it. */
  lemma DeletesOnlyOrphans(states: seq<State>, steps: seq<Step>, i: nat)
    requires IsRun(states, steps) && i < |steps|
    ensures DeletedKey(states[i], steps[i]).Some? ==> !Referred(states[i].refs, DeletedKey(states[i], steps[i]).value)
    ensures forall k <- states[i].storage :: k !in states[i + 1].storage ==> DeletedKey(states[i], steps[i]) == Some(k)
  {
    hide DeletionsOk, WritesOk, Referred, InOpenWrite, Orphans, Queued;
    RunsAreSafe(states, steps, i);
    assert Enabled(states[i], steps[i]) && states[i + 1] == Next(states[i], steps[i]);
    if steps[i].DeleteBlob? { assert WorkerOk(states[i], PhaseOf(states[i], steps[i].worker)); }
    if DeletedKey(states[i], steps[i]).Some? { assert KeyOk(states[i], DeletedKey(states[i], steps[i]).value); }
  }

  // --------------------------------------------------------------------- retries

  lemma PowersToTen()
    ensures Power(10) == 1024 && Power(9) == 512
  {
    assert Power(5) == 32;
    assert Power(7) == 128;
    assert Power(9) == 512;
  }

  lemma {:induction false} PowerGrows(m: nat, n: nat)
    requires m <= n
    ensures 1 <= Power(m) <= Power(n)
  {
    if m < n { PowerGrows(m, n - 1); }
    else if m > 0 { PowerGrows(m - 1, n - 1); }
  }

  /** Whatever the number of attempts, the delay lies in 1..1024 seconds; it starts at 1 and doubles until then. */
  lemma RetryDelayIsBounded(attempts: int)
    ensures 1 <= RetryDelay(attempts) <= MAX_RETRY_DELAY_SECONDS
    ensures attempts <= 1 ==> RetryDelay(attempts) == 1
    ensures 1 <= attempts <= 10 ==> RetryDelay(attempts + 1) == 2 * RetryDelay(attempts)
    ensures attempts >= 11 ==> RetryDelay(attempts) == MAX_RETRY_DELAY_SECONDS
  {
    PowersToTen();
    var exponent := if attempts <= 1 then 0 else if attempts - 1 < 10 then attempts - 1 else 10;
    PowerGrows(exponent, 10);
    if 1 <= attempts <= 10 {
      PowerGrows(attempts, 10);
      assert Power(attempts) == 2 * Power(attempts - 1);
    }
  }

  // --------------------------------------------------------------------- claims and retries

  /** The worker gives the key back: it still holds the claim, and its delete has failed. */
  predicate GivesBack(s: State, step: Step, k: Key) {
    && step.Retry? && PhaseOf(s, step.worker).Broken? && PhaseOf(s, step.worker).key == k
    && Holds(s, step.worker, k)
  }

  predicate IsClaim(step: Step, k: Key) {
    step.Claim? && step.key == k
  }

  /** What a step does to the row of a key that is queued before and after it. */
  lemma RowStep(s: State, step: Step, k: Key)
    requires Enabled(s, step) && k in s.queue && k in Next(s, step).queue
    ensures var row, row' := s.queue[k], Next(s, step).queue[k];
            row' == if IsClaim(step, k) then
                      Row(row.attempts + 1, row.availableAt, Some(step.worker), Some(s.now + 300))
                    else if GivesBack(s, step, k) then
                      Row(row.attempts, s.now + RetryDelay(PhaseOf(s, step.worker).attempts), None, None)
                    else row
  {
    hide Orphans, Referred, ReferredElsewhere, BeingDeleted, BeingWritten, CleanupHeld, RetryDelay;
  }

  /** A key is queued anew by a deletion alone, which takes the last reference to it; it may be claimed at once. */
  lemma QueuedAnew(s: State, step: Step, k: Key)
    requires Inv(s) && Enabled(s, step) && k !in s.queue && k in Next(s, step).queue
    ensures step.Commit? && Referred(s.refs, k) && k !in s.retired
    ensures Next(s, step).queue[k] == Row(0, s.now, None, None)
  {
    hide DeletionsOk, WritesOk, WorkersOk, Orphans, Referred, ReferredElsewhere, InOpenWrite;
    assert step.Commit?;
    ReferredAfterDeletion(s, step, k);
    assert KeyOk(s, k);
  }

  lemma RetiredStays(s: State, step: Step, k: Key)
    requires Enabled(s, step) && k in s.retired
    ensures k in Next(s, step).retired
  {
    hide Orphans, Referred, ReferredElsewhere;
  }

  lemma QueuedIsRetired(states: seq<State>, steps: seq<Step>, i: nat, k: Key)
    requires IsRun(states, steps) && i < |states| && k in states[i].queue
    ensures k in states[i].retired
  {
    hide IsRun, DeletionsOk, WritesOk, WorkersOk, Referred, InOpenWrite;
    RunsAreSafe(states, steps, i);
    assert KeyOk(states[i], k);
  }

  /** A key that has left the queue never comes back, and until it leaves only claims and retries change its row. */
  lemma {:induction false} RowStays(states: seq<State>, steps: seq<Step>, i: nat, j: nat, k: Key)
    requires IsRun(states, steps) && i <= j < |states| && k in states[i].queue
    requires forall m: nat :: i <= m < j ==> !IsClaim(steps[m], k) && !GivesBack(states[m], steps[m], k)
    ensures k in states[j].retired
    ensures k in states[j].queue ==> states[j].queue[k] == states[i].queue[k]
  {
    hide Enabled, Next, Initial, GivesBack, Inv, Referred;
    if i == j {
      QueuedIsRetired(states, steps, i, k);
    } else {
      var p := j - 1;
      RowStays(states, steps, i, p, k);
      RunsAreSafe(states, steps, p);
      assert Enabled(states[p], steps[p]) && states[p + 1] == Next(states[p], steps[p]);
      assert !IsClaim(steps[p], k) && !GivesBack(states[p], steps[p], k);
      RetiredStays(states[p], steps[p], k);
      if k in states[j].queue {
        if k in states[p].queue { RowStep(states[p], steps[p], k); } else { QueuedAnew(states[p], steps[p], k); }
      }
    }
  }

  /**
   * A claim is exclusive for its five minutes: unless its worker gives the key back, the key is
   * claimed again only later than that.
   */
  lemma ClaimIsExclusive(states: seq<State>, steps: seq<Step>, i: nat, j: nat, k: Key)
    requires IsRun(states, steps) && i < j < |steps| && IsClaim(steps[i], k) && IsClaim(steps[j], k)
    requires forall m: nat :: i < m < j ==> !IsClaim(steps[m], k) && !GivesBack(states[m], steps[m], k)
    ensures states[j].now > states[i].now + 300
  {
    hide Initial, GivesBack, Orphans, Referred, ReferredElsewhere;
    assert Enabled(states[i], steps[i]) && states[i + 1] == Next(states[i], steps[i]);
    RowStep(states[i], steps[i], k);
    RowStays(states, steps, i + 1, j, k);
    assert Enabled(states[j], steps[j]);
  }

  /** How often the key has been claimed in the first `n` steps. */
  function Claims(steps: seq<Step>, n: nat, k: Key): nat
    requires n <= |steps|
  {
    if n == 0 then 0 else Claims(steps, n - 1, k) + if IsClaim(steps[n - 1], k) then 1 else 0
  }

  /** A row counts the claims of its key, and so does the worker that holds it. */
  lemma {:induction false} AttemptsAreClaims(states: seq<State>, steps: seq<Step>, i: nat, k: Key)
    requires IsRun(states, steps) && i < |states|
    ensures k !in states[i].retired ==> Claims(steps, i, k) == 0
    ensures k in states[i].queue ==> states[i].queue[k].attempts == Claims(steps, i, k)
  {
    hide Enabled, Next, GivesBack, Inv, Referred;
    if i > 0 {
      var p := i - 1;
      AttemptsAreClaims(states, steps, p, k);
      RunsAreSafe(states, steps, p);
      assert Enabled(states[p], steps[p]) && states[p + 1] == Next(states[p], steps[p]);
      if k in states[p].retired { RetiredStays(states[p], steps[p], k); }
      if IsClaim(steps[p], k) { ClaimedIsQueued(states[p], steps[p], k); QueuedIsRetired(states, steps, p, k); }
      if k in states[i].queue {
        if k in states[p].queue { RowStep(states[p], steps[p], k); } else { QueuedAnew(states[p], steps[p], k); }
      }
    }
  }

  lemma ClaimedIsQueued(s: State, step: Step, k: Key)
    requires Enabled(s, step) && IsClaim(step, k)
    ensures k in s.queue
  {
  }

  /** A worker that holds its key knows how often it was claimed. */
  ghost predicate KnowsAttempts(s: State, w: WorkerId) {
    var p := PhaseOf(s, w);
    !p.Idle? && Holds(s, w, p.key) ==> p.attempts == s.queue[p.key].attempts
  }

  lemma StepKnows(s: State, step: Step, w: WorkerId)
    requires Inv(s) && Enabled(s, step) && KnowsAttempts(s, w)
    ensures KnowsAttempts(Next(s, step), w)
  {
    hide Inv, Orphans, Referred, ReferredElsewhere, BeingDeleted, BeingWritten, CleanupHeld, RetryDelay, Enabled, Next;
    var n := Next(s, step);
    var p := PhaseOf(n, w);
    if !p.Idle? && Holds(n, w, p.key) {
      PhaseStep(s, step, w);
      if p.key in s.queue { RowStep(s, step, p.key); } else { QueuedAnew(s, step, p.key); }
    }
  }

  /** A worker's phase keeps its key and count, or is that of a claim. */
  lemma PhaseStep(s: State, step: Step, w: WorkerId)
    requires Enabled(s, step) && !PhaseOf(Next(s, step), w).Idle?
    ensures var p, p' := PhaseOf(s, w), PhaseOf(Next(s, step), w);
            || (!p.Idle? && p'.key == p.key && p'.attempts == p.attempts && !(step.Claim? && step.worker == w))
            || (step == Claim(w, p'.key) && p'.key in s.queue && p'.attempts == s.queue[p'.key].attempts + 1)
    ensures step.Retry? ==> step.worker != w
  {
    hide Orphans, Referred, ReferredElsewhere, BeingDeleted, BeingWritten, CleanupHeld, RetryDelay;
  }

  lemma {:induction false} WorkersKnow(states: seq<State>, steps: seq<Step>, i: nat, w: WorkerId)
    requires IsRun(states, steps) && i < |states|
    ensures KnowsAttempts(states[i], w)
  {
    hide Enabled, Next, Inv;
    if i > 0 {
      WorkersKnow(states, steps, i - 1, w);
      RunsAreSafe(states, steps, i - 1);
      assert states[i - 1 + 1] == Next(states[i - 1], steps[i - 1]);
      StepKnows(states[i - 1], steps[i - 1], w);
    }
  }

  /** A key given back after its n-th claim is claimed again no sooner than the n-th retry delay from then. */
  lemma RetryWaits(states: seq<State>, steps: seq<Step>, i: nat, j: nat, k: Key)
    requires IsRun(states, steps) && i < j < |steps| && GivesBack(states[i], steps[i], k) && IsClaim(steps[j], k)
    requires forall m: nat :: i < m < j ==> !IsClaim(steps[m], k) && !GivesBack(states[m], steps[m], k)
    ensures states[j].now >= states[i].now + RetryDelay(Claims(steps, i, k))
  {
    hide Initial, Orphans, Referred, ReferredElsewhere, RetryDelay;
    assert Enabled(states[i], steps[i]) && states[i + 1] == Next(states[i], steps[i]);
    WorkersKnow(states, steps, i, steps[i].worker);
    AttemptsAreClaims(states, steps, i, k);
    RowStep(states[i], steps[i], k);
    RowStays(states, steps, i + 1, j, k);
    assert Enabled(states[j], steps[j]);
  }
}
