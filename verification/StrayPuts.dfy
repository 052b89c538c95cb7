/**
 * Runs in which puts reach the blob store after their transaction has aborted: exactly when a
 * committed row is lost, and why those of baselines never do harm.
 */
module StrayPuts {
  import opened Wrappers
  import opened UpdateModel
  import opened UpdatePlans
  import opened Lifecycle
  import opened Transactions
  import opened Atomicity
  import opened BlobSafety
  import opened Runs
  import opened RunTheorems
  import BaseCache
  import DeltaProtocol
  import JournalStore

  /** A put that is still under way. */
  datatype Stray = Stray(key: Key, bytes: Bytes)

  /** The service's state, and the puts of prepared transactions that aborted: they may still be under way. */
  datatype LateState = LateState(s: State, strays: set<Stray>)

  /** A step of the service, or the landing of a put whose transaction has aborted; one may land more than once. */
  datatype LateStep = Plain(step: Step) | Land(key: Key, bytes: Bytes)

  ghost predicate LateEnabled(e: Env, l: LateState, step: LateStep) {
    match step
    case Plain(p) => Enabled(e, l.s, p)
    case Land(key, bytes) => Stray(key, bytes) in l.strays
  }

  function StraysOf(puts: map<Key, Bytes>): set<Stray> {
    set k | k in puts :: Stray(k, puts[k])
  }

  /** The puts a step leaves under way. */
  function LeftUnderWay(s: State, step: Step): set<Stray> {
    if step.Abort? && step.id in s.txs && s.txs[step.id].prepared.Some?
    then StraysOf(s.txs[step.id].prepared.value.change.puts) else {}
  }

  ghost function LateNext(e: Env, l: LateState, step: LateStep): LateState
    requires LateEnabled(e, l, step)
  {
    match step
    case Plain(p) => LateState(Next(e, l.s, p), l.strays + LeftUnderWay(l.s, p))
    case Land(key, bytes) => l.(s := l.s.(blobs := l.s.blobs[key := bytes]))
  }

  ghost predicate IsLateRun(e: Env, states: seq<LateState>, steps: seq<LateStep>) {
    && |states| == |steps| + 1
    && Initial(states[0].s) && states[0].strays == {}
    && forall i :: 0 <= i < |steps| ==>
         LateEnabled(e, states[i], steps[i]) && states[i + 1] == LateNext(e, states[i], steps[i])
  }

  /** Every committed row reads back, in the states before `n`. */
  ghost predicate BackedBefore(e: Env, states: seq<LateState>, n: nat)
    requires n <= |states|
  {
    forall i :: 0 <= i < n ==> Backed(e, states[i].s.db, states[i].s.blobs)
  }

  // --------------------------------------------------------------------- the run without the landings

  /** The step without landings: they leave the service where it is. */
  function Quietly(s: State, step: LateStep): Step {
    if step.Plain? then step.step else Tick(s.now)
  }

  /** The store after a step when landings leave it alone. */
  ghost function Stored(e: Env, l: LateState, step: LateStep, blobs: map<Key, Bytes>): map<Key, Bytes>
    requires LateEnabled(e, l, step)
  {
    if step.Land? then blobs
    else if step.step.PutBlob? then
      blobs[step.step.key := l.s.txs[step.step.id].prepared.value.change.puts[step.step.key]]
    else if step.step.LateDelete? then blobs - {step.step.key}
    else blobs
  }

  /** What would be stored had no put landed late. */
  ghost function OwnBlobs(e: Env, states: seq<LateState>, steps: seq<LateStep>, i: nat): map<Key, Bytes>
    requires IsLateRun(e, states, steps) && i < |states|
  {
    if i == 0 then states[0].s.blobs
    else
      assert LateEnabled(e, states[i - 1], steps[i - 1]);
      Stored(e, states[i - 1], steps[i - 1], OwnBlobs(e, states, steps, i - 1))
  }

  ghost function Own(e: Env, states: seq<LateState>, steps: seq<LateStep>, i: nat): State
    requires IsLateRun(e, states, steps) && i < |states|
  {
    states[i].s.(blobs := OwnBlobs(e, states, steps, i))
  }

  ghost function OwnStates(e: Env, states: seq<LateState>, steps: seq<LateStep>, n: nat): (r: seq<State>)
    requires IsLateRun(e, states, steps) && n < |states|
    ensures |r| == n + 1 && forall i :: 0 <= i <= n ==> r[i] == Own(e, states, steps, i)
  {
    if n == 0 then [Own(e, states, steps, 0)]
    else OwnStates(e, states, steps, n - 1) + [Own(e, states, steps, n)]
  }

  ghost function OwnSteps(states: seq<LateState>, steps: seq<LateStep>, n: nat): (r: seq<Step>)
    requires n <= |steps| && n <= |states|
    ensures |r| == n && forall i :: 0 <= i < n ==> r[i] == Quietly(states[i].s, steps[i])
  {
    if n == 0 then [] else OwnSteps(states, steps, n - 1) + [Quietly(states[n - 1].s, steps[n - 1])]
  }

  /** Where every row reads back, a request decides and loads the same whichever of the two stores it reads. */
  lemma SameReadings(e: Env, s: State, blobs: map<Key, Bytes>, step: Step)
    requires EncodingFacts(e) && AllRowsOk(s.db) && Backed(e, s.db, s.blobs) && Backed(e, s.db, blobs)
    requires Enabled(e, s, step) && !step.PutBlob? && !step.LateDelete?
    ensures Enabled(e, s.(blobs := blobs), step)
    ensures Next(e, s.(blobs := blobs), step) == Next(e, s, step).(blobs := blobs)
  {
    hide EncodingFacts, Plan, Ready, Ideal, AllRowsOk, Backed, Loads, MayRequest, After;
    if step.Prepare? {
      var op := s.txs[step.id].op;
      PlanIsIdeal(e, op, s.now, s.db, s.blobs);
      PlanIsIdeal(e, op, s.now, s.db, blobs);
      if Flushes(op) {
        BaseCache.LoadsWhatWasGiven(e, s.db, s.blobs, op.update, op.base);
        BaseCache.LoadsWhatWasGiven(e, s.db, blobs, op.update, op.base);
      }
    }
  }

  lemma StoreSteps(e: Env, s: State, blobs: map<Key, Bytes>, step: Step)
    requires Enabled(e, s, step) && (step.PutBlob? || step.LateDelete?)
    ensures Enabled(e, s.(blobs := blobs), step)
    ensures step.PutBlob? ==>
      Next(e, s.(blobs := blobs), step)
      == Next(e, s, step).(blobs := blobs[step.key := s.txs[step.id].prepared.value.change.puts[step.key]])
    ensures step.LateDelete? ==>
      Next(e, s.(blobs := blobs), step) == Next(e, s, step).(blobs := blobs - {step.key})
  {
  }

  lemma OwnStep(e: Env, states: seq<LateState>, steps: seq<LateStep>, i: nat)
    requires EncodingFacts(e) && IsLateRun(e, states, steps) && i < |steps|
    requires Inv(e, Own(e, states, steps, i)) && Backed(e, states[i].s.db, states[i].s.blobs)
    ensures Enabled(e, Own(e, states, steps, i), Quietly(states[i].s, steps[i]))
    ensures Own(e, states, steps, i + 1) == Next(e, Own(e, states, steps, i), Quietly(states[i].s, steps[i]))
  {
    hide EncodingFacts, Enabled, Next, Backed, AllRowsOk, LocksOk, IdsOk, PreparedOk, DoomedOk, PutsOk, Serial;
    var s, own := states[i].s, OwnBlobs(e, states, steps, i);
    assert LateEnabled(e, states[i], steps[i]) && states[i + 1] == LateNext(e, states[i], steps[i]);
    OwnBlobsNext(e, states, steps, i);
    DbParts(s.db);
    match steps[i] {
      case Plain(step) =>
        if step.PutBlob? || step.LateDelete? {
          StoreSteps(e, s, own, step);
        } else {
          SameReadings(e, s, own, step);
        }
      case Land(_, _) => TickingStays(e, s.(blobs := own));
    }
  }

  lemma OwnBlobsNext(e: Env, states: seq<LateState>, steps: seq<LateStep>, i: nat)
    requires IsLateRun(e, states, steps) && i < |steps|
    ensures LateEnabled(e, states[i], steps[i])
    ensures OwnBlobs(e, states, steps, i + 1) == Stored(e, states[i], steps[i], OwnBlobs(e, states, steps, i))
  {
    hide LateNext, LateEnabled, Stored;
    assert LateEnabled(e, states[i], steps[i]);
  }

  lemma TickingStays(e: Env, s: State)
    ensures Enabled(e, s, Tick(s.now)) && Next(e, s, Tick(s.now)) == s
  {
  }

  /** As long as every row reads back, the service runs as it would without the landings. */
  lemma {:induction false} OwnIsRun(e: Env, states: seq<LateState>, steps: seq<LateStep>, n: nat)
    requires EncodingFacts(e) && IsLateRun(e, states, steps) && n < |states| && BackedBefore(e, states, n)
    ensures IsRun(e, OwnStates(e, states, steps, n), OwnSteps(states, steps, n))
    decreases n
  {
    hide EncodingFacts, LateEnabled, LateNext, Enabled, Next, Backed, Initial, Inv, Own, Quietly;
    if n == 0 {
      StartsAlike(e, states, steps);
    } else {
      OwnIsRun(e, states, steps, n - 1);
      RunsAreSafe(e, OwnStates(e, states, steps, n - 1), OwnSteps(states, steps, n - 1), n - 1);
      OwnStep(e, states, steps, n - 1);
    }
  }

  lemma StartsAlike(e: Env, states: seq<LateState>, steps: seq<LateStep>)
    requires IsLateRun(e, states, steps)
    ensures Initial(Own(e, states, steps, 0))
  {
  }

  /** What is proved of every state of every run holds of the tables and transactions of a late run. */
  lemma LateAt(e: Env, states: seq<LateState>, steps: seq<LateStep>, n: nat)
    requires EncodingFacts(e) && IsLateRun(e, states, steps) && n < |states| && BackedBefore(e, states, n)
    ensures Inv(e, Own(e, states, steps, n))
    ensures n < |steps| ==> LateEnabled(e, states[n], steps[n]) && states[n + 1] == LateNext(e, states[n], steps[n])
  {
    hide EncodingFacts, LateEnabled, LateNext, Inv, Own;
    OwnIsRun(e, states, steps, n);
    RunsAreSafe(e, OwnStates(e, states, steps, n), OwnSteps(states, steps, n), n);
  }

  // --------------------------------------------------------------------- what a landing may overwrite

  function VersionOf(k: Key): nat {
    match k
    case FullKey(_, version) => version
    case BaseKey(_, _) => DELTA_BASE_VERSION
  }

  /** The row a key is named by is kept under it. */
  predicate KeptUnder(db: Db, k: Key) {
    && k.update in db.updates
    && VersionOf(k) in db.updates[k.update].rows
    && db.updates[k.update].rows[VersionOf(k)].key == Some(k)
  }

  /** A row is kept under the key, and the bytes are not its own. */
  predicate KeptOtherwise(e: Env, db: Db, k: Key, bytes: Bytes) {
    KeptUnder(db, k) && BytesOf(e, db.updates[k.update].rows[VersionOf(k)]) != bytes
  }

  /** Only the row a key is named by can be kept under it. */
  lemma OneRowPerKey(db: Db, u: UpdateId, v: nat)
    requires AllRowsOk(db) && u in db.updates && v in db.updates[u].rows
    ensures db.updates[u].rows[v].key.Some? ==>
              var k := db.updates[u].rows[v].key.value; k.update == u && VersionOf(k) == v && KeptUnder(db, k)
  {
    assert RowOk(u, db.updates[u]);
  }

  /** In the state it lands in a put spoils a row exactly when one is kept under the key with other bytes. */
  lemma LandingSpoils(e: Env, db: Db, blobs: map<Key, Bytes>, k: Key, bytes: Bytes)
    requires AllRowsOk(db) && Backed(e, db, blobs)
    ensures Backed(e, db, blobs[k := bytes]) <==> !KeptOtherwise(e, db, k, bytes)
  {
    hide BytesOf, KeptUnder, AllRowsOk;
    if KeptUnder(db, k) { KeptRow(e, db, blobs[k := bytes], k); }
    if !KeptOtherwise(e, db, k, bytes) {
      forall u <- db.updates, v <- db.updates[u].rows ensures RowBacked(e, db.updates[u].rows[v], blobs[k := bytes]) {
        OneRowPerKey(db, u, v);
        assert RowBacked(e, db.updates[u].rows[v], blobs);
      }
    }
  }

  /** Distinct documents have distinct bytes. */
  lemma BytesTellDocuments(e: Env, a: Doc, b: Doc)
    requires EncodingFacts(e)
    ensures e.encode(e.serialize(a)) == e.encode(e.serialize(b)) <==> a == b
  {
    if e.encode(e.serialize(a)) == e.encode(e.serialize(b)) {
      assert e.decode(e.encode(e.serialize(a))) == Some(e.serialize(a));
      assert e.decode(e.encode(e.serialize(b))) == Some(e.serialize(b));
      assert e.parse(e.serialize(a)) == Some(a) && e.parse(e.serialize(b)) == Some(b);
    }
  }

  /** A full checkpoint's put lands on a row's bytes with others exactly when the row is of another document. */
  lemma CheckpointLandsExactly(e: Env, db: Db, u: UpdateId, version: nat, doc: Doc)
    requires EncodingFacts(e) && AllRowsOk(db)
    ensures KeptOtherwise(e, db, FullKey(u, version), e.encode(e.serialize(doc))) <==>
            && KeptUnder(db, FullKey(u, version))
            && db.updates[u].rows[version].Full? && db.updates[u].rows[version].doc != doc
  {
    hide EncodingFacts;
    if KeptUnder(db, FullKey(u, version)) {
      assert RowOk(u, db.updates[u]);
      BytesTellDocuments(e, db.updates[u].rows[version].doc, doc);
    }
  }

  lemma KeptRow(e: Env, db: Db, blobs: map<Key, Bytes>, k: Key)
    requires KeptUnder(db, k)
    ensures k.update in db.updates && VersionOf(k) in db.updates[k.update].rows
    ensures Backed(e, db, blobs) ==> k in blobs && blobs[k] == BytesOf(e, db.updates[k.update].rows[VersionOf(k)])
  {
    hide BytesOf;
    if Backed(e, db, blobs) { assert RowBacked(e, db.updates[k.update].rows[VersionOf(k)], blobs); }
  }

  // --------------------------------------------------------------------- what a commit relies on

  /** What is put for a change is kept under its key by a row of the change, with the bytes put. */
  ghost predicate PutIsKept(e: Env, c: Change, k: Key) {
    && k.update in c.rows && VersionOf(k) in c.rows[k.update].rows
    && c.rows[k.update].rows[VersionOf(k)].key == Some(k)
    && k in c.puts && c.puts[k] == BytesOf(e, c.rows[k.update].rows[VersionOf(k)])
  }

  ghost predicate PutsAreKept(e: Env, c: Change) {
    (forall k <- c.puts :: PutIsKept(e, c, k)) && (c.puts != map[] ==> c.dropped.None?)
  }

  lemma SaveDocKeeps(e: Env, u: UpdateId, row: UpdateRow, doc: Doc, at: Time)
    ensures PutsAreKept(e, SaveDoc(e, u, row, doc, at))
  {
    hide CodeUnits, NextVersion;
  }

  lemma SaveDocAndBaseKeeps(e: Env, u: UpdateId, row: UpdateRow, doc: Doc, number: nat, text: Text, at: Time)
    ensures PutsAreKept(e, SaveDocAndBase(e, u, row, doc, number, text, at))
  {
    hide CodeUnits, NextVersion, BytesOf;
    NextVersionIsPositive(row.rows);
  }

  lemma NextVersionIsPositive(rows: map<nat, Row>)
    ensures NextVersion(rows) > 0
  {
  }

  lemma RowPutsAreKept(e: Env, op: Op, row: UpdateRow, at: Time, base: Baseline)
    requires (OnRow(op) || OnRowAndStack(op)) && PlanRow(e, op, row, at, base).Success?
    ensures PutsAreKept(e, PlanRow(e, op, row, at, base).value)
  {
    hide PutsAreKept, SaveDoc, SaveDocAndBase, Edited, JournalStore.InsertRows, JournalStore.Flushed;
    var c := PlanRow(e, op, row, at, base).value;
    NoPuts(e, c);
    match op {
      case Patch(u, doc) => SaveDocKeeps(e, u, row, doc, at);
      case Verbatim(u, number, text) =>
        if c != NO_CHANGE { SaveDocAndBaseKeeps(e, u, row, e.parse(text).value, number, text, at); }
      case Delta(u, number, edits, expected) =>
        if c != NO_CHANGE {
          var text := Edited(e, base.text, edits, expected).value;
          SaveDocAndBaseKeeps(e, u, row, e.parse(text).value, number, text, at);
        }
      case Journal(u, batch, doc) =>
        var row' := row.(journal := JournalStore.InsertRows(row.journal, batch));
        SaveDocKeeps(e, u, row', JournalStore.Flushed(doc, row'.journal), at);
      case _ =>
    }
  }

  lemma NoPuts(e: Env, c: Change)
    ensures c.puts == map[] ==> PutsAreKept(e, c)
  {
  }

  lemma RequestPutsAreKept(e: Env, op: Op, at: Time, db: Db)
    requires Ideal(e, op, at, db).Success?
    ensures PutsAreKept(e, Ideal(e, op, at, db).value)
  {
    hide PutsAreKept, SaveDoc, PlanRow, Versions, Latest, OrphanKeys, Populated, Orphans;
    NoPuts(e, Ideal(e, op, at, db).value);
    if OnRow(op) || OnRowAndStack(op) {
      if op.update in db.updates {
        RowPutsAreKept(e, op, db.updates[op.update], at, GivenBaseline(db.updates[op.update].rows));
      }
    } else if op.ImportDoc? {
      var row := NewRow(Import, Succeeded, MaxOrZero(Versions(db, op.stack, false)) + 1, at);
      SaveDocKeeps(e, op.id, row, op.doc, at);
    }
  }

  /** A commit leaves every row readable exactly when the store holds what the change has put. */
  lemma CommitReadsBack(e: Env, db: Db, blobs: map<Key, Bytes>, c: Change)
    requires Backed(e, db, blobs) && ChangeKeys(e, db, c) && PutsAreKept(e, c)
    ensures Backed(e, After(db, c), blobs) <==> forall k <- c.puts :: k in blobs && blobs[k] == c.puts[k]
  {
    hide ChangeKeys, BytesOf;
    if forall k <- c.puts :: k in blobs && blobs[k] == c.puts[k] {
      CommitKeepsBacked(e, db, blobs, c);
    }
    if Backed(e, After(db, c), blobs) {
      forall k | k in c.puts ensures k in blobs && blobs[k] == c.puts[k] {
        assert PutIsKept(e, c, k);
        var row := After(db, c).updates[k.update].rows[VersionOf(k)];
        assert RowBacked(e, row, blobs);
      }
    }
  }

  // --------------------------------------------------------------------- what a live transaction has put

  predicate WritesKey(step: LateStep, k: Key) {
    match step
    case Land(key, _) => key == k
    case Plain(p) => p.PutBlob? && p.key == k
  }

  predicate Ends(step: LateStep, t: TxId) {
    step == Plain(Commit(t)) || step == Plain(Abort(t))
  }

  /** The transaction has put the key and has not ended. */
  predicate HasPut(s: State, t: TxId, k: Key) {
    && t in s.txs && s.txs[t].prepared.Some?
    && k in s.txs[t].prepared.value.put && k in s.txs[t].prepared.value.change.puts
  }

  /** The bytes the transaction has for the key. */
  function Given(s: State, t: TxId, k: Key): Bytes
    requires HasPut(s, t, k)
  {
    s.txs[t].prepared.value.change.puts[k]
  }

  /** What the transaction has put is what is stored. */
  predicate IsStored(s: State, t: TxId, k: Key)
    requires HasPut(s, t, k)
  {
    k in s.blobs && s.blobs[k] == Given(s, t, k)
  }

  /**
   * Other bytes land at `j` under a key the transaction has put, and until `m` it neither puts the
   * key again nor ends, and nothing else lands there.
   */
  ghost predicate Overwritten(states: seq<LateState>, steps: seq<LateStep>, j: nat, m: nat, t: TxId, k: Key)
    requires j < m <= |steps| && |steps| < |states|
  {
    && steps[j].Land? && steps[j].key == k
    && HasPut(states[j].s, t, k) && Given(states[j].s, t, k) != steps[j].bytes
    && forall n: nat :: j < n < m ==> !WritesKey(steps[n], k) && !Ends(steps[n], t)
  }

  lemma PutStep(e: Env, states: seq<LateState>, steps: seq<LateStep>, p: nat, t: TxId, k: Key)
    requires EncodingFacts(e) && IsLateRun(e, states, steps) && p < |steps| && Inv(e, Own(e, states, steps, p))
    requires HasPut(states[p + 1].s, t, k)
    ensures steps[p].Plain? && WritesKey(steps[p], k) ==> IsStored(states[p + 1].s, t, k)
    ensures !WritesKey(steps[p], k) || steps[p].Land? ==>
              && HasPut(states[p].s, t, k) && Given(states[p].s, t, k) == Given(states[p + 1].s, t, k)
              && !Ends(steps[p], t)
    ensures steps[p].Land? && steps[p].key == k ==>
              (IsStored(states[p + 1].s, t, k) <==> Given(states[p].s, t, k) == steps[p].bytes)
    ensures !WritesKey(steps[p], k) ==> (IsStored(states[p + 1].s, t, k) <==> IsStored(states[p].s, t, k))
  {
    hide EncodingFacts, Plan, Ready, After, MayRequest, BaseIsGiven, Inv, Initial, OwnBlobs;
    assert LateEnabled(e, states[p], steps[p]) && states[p + 1] == LateNext(e, states[p], steps[p]);
    var s := Own(e, states, steps, p);
    if steps[p].Plain? {
      var step := steps[p].step;
      if step.PutBlob? && step.key == k && step.id != t { PutsApart(e, s, step.id, t, k); }
      if step.LateDelete? && step.key == k { NotDoomed(e, s, t, k); }
    }
  }

  lemma PutsApart(e: Env, s: State, o: TxId, t: TxId, k: Key)
    requires EncodingFacts(e) && Inv(e, s) && HasPut(s, t, k)
    requires o in s.txs && s.txs[o].prepared.Some? && k in s.txs[o].prepared.value.change.puts
    ensures o == t
  {
    hide EncodingFacts, LocksOk, DbOk, IdsOk, PreparedOk, Backed, DoomedOk, PutsOk, Serial;
    if o != t { PutsAreApart(e, s, t, o, k); }
  }

  lemma NotDoomed(e: Env, s: State, t: TxId, k: Key)
    requires EncodingFacts(e) && Inv(e, s) && HasPut(s, t, k)
    ensures k !in s.doomed
  {
    hide EncodingFacts, LocksOk, DbOk, IdsOk, PreparedOk, Backed, PutsOk, Serial, Dead, ChangeKeys, Footprint;
    PreparedKeys(e, s, t);
    PutOwner(e, s, t, k);
    DbParts(s.db);
    PutIsAlive(e, s.db, s.gone, s.txs[t].prepared.value.change, k);
  }

  lemma Outlasts(states: seq<LateState>, steps: seq<LateStep>, j: nat, p: nat, t: TxId, k: Key)
    requires j < p < |steps| && |steps| < |states|
    ensures Overwritten(states, steps, j, p + 1, t, k) <==>
            Overwritten(states, steps, j, p, t, k) && !WritesKey(steps[p], k) && !Ends(steps[p], t)
  {
    hide WritesKey, HasPut, Given, Ends;
  }

  lemma JustNow(states: seq<LateState>, steps: seq<LateStep>, p: nat, t: TxId, k: Key)
    requires p < |steps| < |states|
    ensures Overwritten(states, steps, p, p + 1, t, k) <==>
            && steps[p].Land? && WritesKey(steps[p], k)
            && HasPut(states[p].s, t, k) && Given(states[p].s, t, k) != steps[p].bytes
  {
    hide HasPut, Given, Ends;
  }

  /** What a live transaction has put is stored exactly when nothing has overwritten it. */
  lemma {:induction false} PutIsStored(
      e: Env, states: seq<LateState>, steps: seq<LateStep>, m: nat, t: TxId, k: Key)
    requires EncodingFacts(e) && IsLateRun(e, states, steps) && m < |states| && BackedBefore(e, states, m)
    requires HasPut(states[m].s, t, k)
    ensures IsStored(states[m].s, t, k) <==> !exists j: nat :: j < m && Overwritten(states, steps, j, m, t, k)
    decreases m
  {
    hide EncodingFacts, LateEnabled, LateNext, Inv, Own, Backed, Initial, HasPut, IsStored, Given, Overwritten, Ends;
    NothingPutAtFirst(e, states, steps, t, k);
    var p := m - 1;
    LateAt(e, states, steps, p);
    PutStep(e, states, steps, p, t, k);
    JustNow(states, steps, p, t, k);
    if !WritesKey(steps[p], k) { PutIsStored(e, states, steps, p, t, k); }
    forall j: nat | j < p
      ensures Overwritten(states, steps, j, m, t, k) <==>
              Overwritten(states, steps, j, p, t, k) && !WritesKey(steps[p], k)
    {
      Outlasts(states, steps, j, p, t, k);
    }
  }

  lemma NothingPutAtFirst(e: Env, states: seq<LateState>, steps: seq<LateStep>, t: TxId, k: Key)
    requires IsLateRun(e, states, steps)
    ensures !HasPut(states[0].s, t, k)
  {
  }

  // --------------------------------------------------------------------- when a committed row is lost

  /** Step `n` commits a transaction one of whose puts the landing `j` has overwritten. */
  ghost predicate CommitsOver(states: seq<LateState>, steps: seq<LateStep>, j: nat, n: nat)
    requires j < n < |steps| < |states|
  {
    && steps[j].Land? && steps[n].Plain? && steps[n].step.Commit?
    && Overwritten(states, steps, j, n, steps[n].step.id, steps[j].key)
  }

  /**
   * The landing `j` does harm at step `n`: it hits a kept row with other bytes then, or the step
   * commits a put that it has overwritten.
   */
  ghost predicate HarmsAt(e: Env, states: seq<LateState>, steps: seq<LateStep>, j: nat, n: nat)
    requires j <= n < |steps| < |states|
  {
    if j == n then steps[j].Land? && KeptOtherwise(e, states[j].s.db, steps[j].key, steps[j].bytes)
    else CommitsOver(states, steps, j, n)
  }

  lemma LandStep(e: Env, states: seq<LateState>, steps: seq<LateStep>, n: nat)
    requires EncodingFacts(e) && IsLateRun(e, states, steps) && n < |steps| && BackedBefore(e, states, n + 1)
    requires steps[n].Land?
    ensures Backed(e, states[n + 1].s.db, states[n + 1].s.blobs) <==> !HarmsAt(e, states, steps, n, n)
    ensures forall j: nat | j < n :: !HarmsAt(e, states, steps, j, n)
  {
    hide EncodingFacts, Inv, Own, Backed, Initial, KeptOtherwise, AllRowsOk, LateEnabled, Overwritten;
    LateAt(e, states, steps, n);
    InvParts(e, Own(e, states, steps, n));
    SameTables(e, states, steps, n);
    LandingSpoils(e, states[n].s.db, states[n].s.blobs, steps[n].key, steps[n].bytes);
  }

  lemma SameTables(e: Env, states: seq<LateState>, steps: seq<LateStep>, n: nat)
    requires IsLateRun(e, states, steps) && n < |states|
    ensures Own(e, states, steps, n) == states[n].s.(blobs := OwnBlobs(e, states, steps, n))
  {
  }

  lemma InvParts(e: Env, s: State)
    requires Inv(e, s)
    ensures AllRowsOk(s.db)
  {
  }

  lemma CommitStep(e: Env, states: seq<LateState>, steps: seq<LateStep>, n: nat)
    requires EncodingFacts(e) && IsLateRun(e, states, steps) && n < |steps| && BackedBefore(e, states, n + 1)
    requires steps[n].Plain? && steps[n].step.Commit?
    ensures Backed(e, states[n + 1].s.db, states[n + 1].s.blobs) <==>
            !exists j: nat :: j < n && CommitsOver(states, steps, j, n)
  {
    hide EncodingFacts, Inv, Own, Backed, Initial, After, Overwritten, ChangeKeys, PutsAreKept, Plan, Ready;
    LateAt(e, states, steps, n);
    var s, t := states[n].s, steps[n].step.id;
    var c := s.txs[t].prepared.value.change;
    SameTables(e, states, steps, n);
    CommitRelies(e, Own(e, states, steps, n), t);
    CommitReadsBack(e, s.db, s.blobs, c);
    forall k | k in c.puts
      ensures (k in s.blobs && s.blobs[k] == c.puts[k]) <==>
              !exists j: nat :: j < n && Overwritten(states, steps, j, n, t, k)
    {
      PutIsStored(e, states, steps, n, t, k);
    }
    forall j: nat | j < n && CommitsOver(states, steps, j, n) ensures steps[j].key in c.puts {
      StillPut(e, states, steps, j, n, t, steps[j].key);
    }
    forall j: nat, k | j < n && Overwritten(states, steps, j, n, t, k) ensures CommitsOver(states, steps, j, n) {
      OverwrittenLands(states, steps, j, n, t, k);
    }
  }

  lemma OverwrittenLands(states: seq<LateState>, steps: seq<LateStep>, j: nat, n: nat, t: TxId, k: Key)
    requires j < n <= |steps| < |states| && Overwritten(states, steps, j, n, t, k)
    ensures steps[j].Land? && steps[j].key == k
  {
  }

  lemma CommitRelies(e: Env, s: State, t: TxId)
    requires EncodingFacts(e) && Inv(e, s) && t in s.txs && s.txs[t].prepared.Some?
    ensures var c := s.txs[t].prepared.value.change; ChangeKeys(e, s.db, c) && PutsAreKept(e, c)
  {
    hide EncodingFacts, LocksOk, DbOk, IdsOk, Backed, DoomedOk, PutsOk, Serial, ChangeKeys, PutsAreKept, Ideal, Ready,
      Footprint;
    PreparedKeys(e, s, t);
    assert StillValid(e, s, s.txs[t]);
    RequestPutsAreKept(e, s.txs[t].op, s.txs[t].prepared.value.at, s.db);
  }

  lemma PutOutlasts(e: Env, l: LateState, step: LateStep, t: TxId, k: Key)
    requires LateEnabled(e, l, step) && HasPut(l.s, t, k) && !Ends(step, t)
    ensures HasPut(LateNext(e, l, step).s, t, k)
  {
    hide Plan, Ready, After, MayRequest, BaseIsGiven;
  }

  lemma {:induction false} StillPut(
      e: Env, states: seq<LateState>, steps: seq<LateStep>, j: nat, m: nat, t: TxId, k: Key)
    requires IsLateRun(e, states, steps) && j < m < |states| && Overwritten(states, steps, j, m, t, k)
    ensures HasPut(states[m].s, t, k)
  {
    hide Initial, LateEnabled, LateNext, HasPut, Given, WritesKey;
    var p := m - 1;
    if j < p { StillPut(e, states, steps, j, p, t, k); }
    assert LateEnabled(e, states[p], steps[p]) && states[p + 1] == LateNext(e, states[p], steps[p]);
    PutOutlasts(e, states[p], steps[p], t, k);
  }

  /** No row is kept under the key of a put or a delete of the service. */
  lemma StoreStepHitsNoRow(e: Env, s: State, step: Step, u: UpdateId, v: nat)
    requires EncodingFacts(e) && Inv(e, s) && Enabled(e, s, step) && (step.PutBlob? || step.LateDelete?)
    requires u in s.db.updates && v in s.db.updates[u].rows
    ensures s.db.updates[u].rows[v].key != Some(step.key)
  {
    hide EncodingFacts, LocksOk, DbOk, IdsOk, PreparedOk, PutsOk, Serial, ChangeKeys, Footprint, Backed, Dead, Plan,
      Ready;
    DbParts(s.db);
    if step.PutBlob? {
      PreparedKeys(e, s, step.id);
      PutIsUnused(e, s.db, s.txs[step.id].prepared.value.change, step.key, u, v);
    } else if s.db.updates[u].rows[v].key.Some? {
      IdsApart(s);
      ReferredIsAlive(s.db, s.gone, u, v);
    }
  }

  lemma IdsApart(s: State)
    requires IdsOk(s)
    ensures s.gone !! s.db.updates.Keys
  {
  }

  lemma OwnStoreKeepsBacked(e: Env, s: State, blobs: map<Key, Bytes>, step: Step, bytes: Bytes)
    requires EncodingFacts(e) && Inv(e, s) && Enabled(e, s, step) && (step.PutBlob? || step.LateDelete?)
    requires Backed(e, s.db, blobs)
    ensures Backed(e, s.db, blobs[step.key := bytes]) && Backed(e, s.db, blobs - {step.key})
  {
    hide EncodingFacts, Inv, Enabled, BytesOf;
    forall u <- s.db.updates, v <- s.db.updates[u].rows
      ensures RowBacked(e, s.db.updates[u].rows[v], blobs[step.key := bytes])
      ensures RowBacked(e, s.db.updates[u].rows[v], blobs - {step.key})
    {
      StoreStepHitsNoRow(e, s, step, u, v);
      assert RowBacked(e, s.db.updates[u].rows[v], blobs);
    }
  }

  lemma OtherStep(e: Env, states: seq<LateState>, steps: seq<LateStep>, n: nat)
    requires EncodingFacts(e) && IsLateRun(e, states, steps) && n < |steps| && BackedBefore(e, states, n + 1)
    requires steps[n].Plain? && !steps[n].step.Commit?
    ensures Backed(e, states[n + 1].s.db, states[n + 1].s.blobs)
  {
    hide EncodingFacts, Inv, Own, Backed, Initial, After, Plan, Ready, MayRequest, BaseIsGiven;
    LateAt(e, states, steps, n);
    SameTables(e, states, steps, n);
    var s, own, step := states[n].s, Own(e, states, steps, n), steps[n].step;
    if step.PutBlob? || step.LateDelete? {
      StoreSteps(e, s, own.blobs, step);
      OwnStoreKeepsBacked(e, own, s.blobs, step,
        if step.PutBlob? then s.txs[step.id].prepared.value.change.puts[step.key] else []);
    }
  }

  lemma NextBacked(e: Env, states: seq<LateState>, steps: seq<LateStep>, n: nat)
    requires EncodingFacts(e) && IsLateRun(e, states, steps) && n < |steps| && BackedBefore(e, states, n + 1)
    ensures Backed(e, states[n + 1].s.db, states[n + 1].s.blobs) <==>
            !exists j: nat :: j <= n && HarmsAt(e, states, steps, j, n)
  {
    hide EncodingFacts, Backed, Initial, LateEnabled, LateNext, Overwritten, KeptOtherwise;
    if steps[n].Land? {
      LandStep(e, states, steps, n);
    } else if steps[n].step.Commit? {
      CommitStep(e, states, steps, n);
      forall j: nat | j < n ensures HarmsAt(e, states, steps, j, n) <==> CommitsOver(states, steps, j, n) {}
    } else {
      OtherStep(e, states, steps, n);
    }
  }

  lemma BackedAtFirst(e: Env, states: seq<LateState>, steps: seq<LateStep>)
    requires IsLateRun(e, states, steps)
    ensures Backed(e, states[0].s.db, states[0].s.blobs)
  {
  }

  lemma {:induction false} BackedUntilHarm(e: Env, states: seq<LateState>, steps: seq<LateStep>, n: nat)
    requires EncodingFacts(e) && IsLateRun(e, states, steps) && n < |states|
    ensures BackedBefore(e, states, n + 1) <==>
            !exists j: nat, m: nat :: j <= m < n && HarmsAt(e, states, steps, j, m)
  {
    hide EncodingFacts, Backed, Initial, LateEnabled, LateNext, HarmsAt;
    if n == 0 {
      BackedAtFirst(e, states, steps);
    } else {
      BackedUntilHarm(e, states, steps, n - 1);
      if BackedBefore(e, states, n) { NextBacked(e, states, steps, n - 1); }
    }
  }

  /**
   * However late the puts of aborted transactions land, every committed row stays readable exactly
   * when no landing hits a row kept under its key with other bytes, and no transaction commits with
   * a put of its own that a landing has overwritten with other bytes.
   */
  lemma LatePutsExactly(e: Env, states: seq<LateState>, steps: seq<LateStep>)
    requires EncodingFacts(e) && IsLateRun(e, states, steps)
    ensures (forall i: nat :: i < |states| ==> Backed(e, states[i].s.db, states[i].s.blobs)) <==>
            (forall j: nat, m: nat :: j <= m < |steps| ==> !HarmsAt(e, states, steps, j, m))
  {
    hide EncodingFacts, Backed, Initial, LateEnabled, LateNext, HarmsAt;
    BackedUntilHarm(e, states, steps, |steps|);
  }

  /** Then every committed row reads back as what it was saved from, in every state of the run. */
  lemma LateRowsReadBack(e: Env, states: seq<LateState>, steps: seq<LateStep>, i: nat, u: UpdateId, v: nat)
    requires EncodingFacts(e) && IsLateRun(e, states, steps) && i < |states|
    requires forall j: nat, m: nat :: j <= m < |steps| ==> !HarmsAt(e, states, steps, j, m)
    requires u in states[i].s.db.updates && v in states[i].s.db.updates[u].rows
    ensures var s := states[i].s;
            var rows := s.db.updates[u].rows;
            && (rows[v].Full? ==> ReadDoc(e, rows[v], s.blobs) == Some(rows[v].doc))
            && (rows[v].Base? ==> ReadBaseline(e, rows, s.blobs) == Retained(rows[v].number, rows[v].text))
  {
    hide EncodingFacts, Inv, Own, Initial, LateEnabled, LateNext, HarmsAt, RowsOk, ReadDoc, ReadBaseline, BytesOf;
    LatePutsExactly(e, states, steps);
    LateAt(e, states, steps, i);
    InvParts(e, Own(e, states, steps, i));
    SameTables(e, states, steps, i);
    var s := states[i].s;
    assert RowOk(u, s.db.updates[u]) && RowBacked(e, s.db.updates[u].rows[v], s.blobs);
    if s.db.updates[u].rows[v].Full? {
      RowReadsBack(e, s.db.updates[u].rows[v], s.blobs);
    } else {
      OnlyBaseIsBase(u, s.db.updates[u], v);
      BaselineReadsBack(e, u, s.db.updates[u].rows, s.blobs);
    }
  }

  lemma OnlyBaseIsBase(u: UpdateId, row: UpdateRow, v: nat)
    requires RowOk(u, row) && v in row.rows && row.rows[v].Base?
    ensures v == DELTA_BASE_VERSION && RowsOk(u, row.rows)
  {
  }

  // --------------------------------------------------------------------- baselines

  /** What a save puts under a baseline key is the client's text of that number, without a leading mark. */
  lemma RowPutsClientText(
      e: Env, client: DeltaProtocol.Client, op: Op, row: UpdateRow, at: Time, base: Baseline, k: Key)
    requires EncodingFacts(e) && HashFacts(e) && DeltaProtocol.FromClient(e, client, op)
    requires (OnRow(op) || OnRowAndStack(op)) && PlanRow(e, op, row, at, base).Success?
    requires k.BaseKey? && k in PlanRow(e, op, row, at, base).value.puts
    ensures PlanRow(e, op, row, at, base).value.puts[k] == e.encode(Unmarked(client(k.update, k.number)))
  {
    hide Edited, NextVersion, CodeUnits, JournalStore.InsertRows, JournalStore.Flushed;
    if op.Delta? {
      DeltaProtocol.EditedIsClientText(e, base.text, op.edits, client(op.update, op.number));
    }
  }

  lemma WholePutsNoBaseline(e: Env, op: Op, at: Time, db: Db, k: Key)
    requires !OnRow(op) && !OnRowAndStack(op) && Ideal(e, op, at, db).Success?
    requires k in Ideal(e, op, at, db).value.puts
    ensures k.FullKey?
  {
    hide Versions, Latest, Orphans, OrphanKeys, CodeUnits;
  }

  lemma PutsClientText(e: Env, client: DeltaProtocol.Client, op: Op, at: Time, db: Db, k: Key)
    requires EncodingFacts(e) && HashFacts(e) && DeltaProtocol.FromClient(e, client, op)
    requires Ideal(e, op, at, db).Success? && k.BaseKey? && k in Ideal(e, op, at, db).value.puts
    ensures Ideal(e, op, at, db).value.puts[k] == e.encode(Unmarked(client(k.update, k.number)))
  {
    hide EncodingFacts, HashFacts, PlanRow, DeltaProtocol.FromClient;
    if OnRow(op) || OnRowAndStack(op) {
      RowPutsClientText(e, client, op, db.updates[op.update], at, GivenBaseline(db.updates[op.update].rows), k);
    } else {
      WholePutsNoBaseline(e, op, at, db, k);
    }
  }

  lemma KeptBaseline(e: Env, client: DeltaProtocol.Client, db: Db, k: Key)
    requires AllRowsOk(db) && DeltaProtocol.Agrees(client, db) && k.BaseKey? && KeptUnder(db, k)
    ensures BytesOf(e, db.updates[k.update].rows[VersionOf(k)]) == e.encode(Unmarked(client(k.update, k.number)))
  {
    assert RowOk(k.update, db.updates[k.update]);
    assert DeltaProtocol.BaseAgrees(client, k.update, db.updates[k.update]);
  }

  /** Every request of the late run comes from the client. */
  ghost predicate AllLateFromClient(e: Env, client: DeltaProtocol.Client, steps: seq<LateStep>) {
    forall i: nat :: i < |steps| && steps[i].Plain? && steps[i].step.Begin? ==>
      DeltaProtocol.FromClient(e, client, steps[i].step.op)
  }

  /** The run up to `n`, whose baselines come from one client. */
  ghost predicate ClientRun(
      e: Env, client: DeltaProtocol.Client, states: seq<LateState>, steps: seq<LateStep>, n: nat)
  {
    && EncodingFacts(e) && HashFacts(e) && IsLateRun(e, states, steps) && AllLateFromClient(e, client, steps)
    && n < |states| && BackedBefore(e, states, n)
  }

  lemma OwnFromClient(e: Env, client: DeltaProtocol.Client, states: seq<LateState>, steps: seq<LateStep>, n: nat)
    requires n <= |steps| && n <= |states| && AllLateFromClient(e, client, steps)
    ensures DeltaProtocol.AllFromClient(e, client, OwnSteps(states, steps, n))
  {
    hide DeltaProtocol.FromClient;
  }

  /** What a live transaction has to put under a baseline key is the client's text. */
  lemma LivePutsClientText(
      e: Env, client: DeltaProtocol.Client, states: seq<LateState>, steps: seq<LateStep>, n: nat, t: TxId, k: Key)
    requires ClientRun(e, client, states, steps, n)
    requires t in states[n].s.txs && states[n].s.txs[t].prepared.Some?
    requires k.BaseKey? && k in states[n].s.txs[t].prepared.value.change.puts
    ensures states[n].s.txs[t].prepared.value.change.puts[k] == e.encode(Unmarked(client(k.update, k.number)))
  {
    hide EncodingFacts, HashFacts, Initial, LateEnabled, LateNext, Backed, LocksOk, IdsOk, DbOk, DoomedOk, PutsOk,
      Serial, Ideal, Ready, DeltaProtocol.FromClient, DeltaProtocol.AllFromClient, AllLateFromClient, IsRun, Own;
    LateAt(e, states, steps, n);
    OwnIsRun(e, states, steps, n);
    OwnFromClient(e, client, states, steps, n);
    SameTables(e, states, steps, n);
    var s := Own(e, states, steps, n);
    DeltaProtocol.OpsFromClient(e, client, OwnStates(e, states, steps, n), OwnSteps(states, steps, n), n, t);
    assert StillValid(e, s, s.txs[t]);
    PutsClientText(e, client, s.txs[t].op, s.txs[t].prepared.value.at, s.db, k);
  }

  /** So is what is still under way under a baseline key. */
  lemma {:induction false} StraysAreClientText(
      e: Env, client: DeltaProtocol.Client, states: seq<LateState>, steps: seq<LateStep>, n: nat, stray: Stray)
    requires ClientRun(e, client, states, steps, n) && stray in states[n].strays && stray.key.BaseKey?
    ensures stray.bytes == e.encode(Unmarked(client(stray.key.update, stray.key.number)))
  {
    hide EncodingFacts, HashFacts, Backed, Enabled, Next, AllLateFromClient;
    if n > 0 {
      var p := n - 1;
      assert LateEnabled(e, states[p], steps[p]) && states[p + 1] == LateNext(e, states[p], steps[p]);
      if stray in states[p].strays {
        StraysAreClientText(e, client, states, steps, p, stray);
      } else {
        LivePutsClientText(e, client, states, steps, p, steps[p].step.id, stray.key);
      }
    }
  }

  lemma KeptIsClientText(
      e: Env, client: DeltaProtocol.Client, states: seq<LateState>, steps: seq<LateStep>, n: nat, k: Key)
    requires ClientRun(e, client, states, steps, n) && k.BaseKey? && KeptUnder(states[n].s.db, k)
    ensures var db := states[n].s.db;
            BytesOf(e, db.updates[k.update].rows[VersionOf(k)]) == e.encode(Unmarked(client(k.update, k.number)))
  {
    hide EncodingFacts, HashFacts, Initial, LateEnabled, LateNext, Backed, Inv, BytesOf, KeptUnder, AllRowsOk, IsRun,
      DeltaProtocol.AllFromClient, AllLateFromClient, DeltaProtocol.Agrees, Own;
    LateAt(e, states, steps, n);
    OwnIsRun(e, states, steps, n);
    OwnFromClient(e, client, states, steps, n);
    SameTables(e, states, steps, n);
    InvParts(e, Own(e, states, steps, n));
    DeltaProtocol.BaselinesAgree(e, client, OwnStates(e, states, steps, n), OwnSteps(states, steps, n), n);
    KeptBaseline(e, client, states[n].s.db, k);
  }

  /** The landing of a full checkpoint's put does harm. */
  ghost predicate CheckpointHarms(e: Env, states: seq<LateState>, steps: seq<LateStep>, j: nat, n: nat)
    requires j <= n < |steps| < |states|
  {
    HarmsAt(e, states, steps, j, n) && steps[j].key.FullKey?
  }

  /** No landing under a baseline key does harm: a landing that does is a full checkpoint's. */
  lemma BaselinesDoNoHarm(
      e: Env, client: DeltaProtocol.Client, states: seq<LateState>, steps: seq<LateStep>, j: nat, n: nat)
    requires j <= n < |steps| && ClientRun(e, client, states, steps, n) && HarmsAt(e, states, steps, j, n)
    ensures CheckpointHarms(e, states, steps, j, n)
  {
    hide EncodingFacts, HashFacts, Backed, Enabled, Next, AllLateFromClient, BytesOf, KeptUnder, WritesKey;
    var k := steps[j].key;
    assert LateEnabled(e, states[j], steps[j]);
    if k.BaseKey? {
      StraysAreClientText(e, client, states, steps, j, Stray(k, steps[j].bytes));
      if j == n {
        KeptIsClientText(e, client, states, steps, j, k);
      } else {
        LivePutsClientText(e, client, states, steps, j, steps[n].step.id, k);
      }
    }
  }

  lemma {:induction false} BackedUntilFullHarm(
      e: Env, client: DeltaProtocol.Client, states: seq<LateState>, steps: seq<LateStep>, n: nat)
    requires EncodingFacts(e) && HashFacts(e) && IsLateRun(e, states, steps) && AllLateFromClient(e, client, steps)
    requires n < |states|
    requires forall j: nat, m: nat :: j <= m < |steps| ==> !CheckpointHarms(e, states, steps, j, m)
    ensures BackedBefore(e, states, n + 1)
  {
    hide EncodingFacts, HashFacts, Backed, Initial, LateEnabled, LateNext, AllLateFromClient, CheckpointHarms;
    if n == 0 {
      BackedAtFirst(e, states, steps);
    } else {
      var p := n - 1;
      BackedUntilFullHarm(e, client, states, steps, p);
      NextBacked(e, states, steps, p);
      forall j: nat | j <= p ensures HarmsAt(e, states, steps, j, p) ==> CheckpointHarms(e, states, steps, j, p) {
        if HarmsAt(e, states, steps, j, p) { BaselinesDoNoHarm(e, client, states, steps, j, p); }
      }
    }
  }

  /**
   * With the client's saves the baselines' puts may land whenever they like: every committed row
   * stays readable exactly when no full checkpoint's landing does harm.
   */
  lemma OnlyCheckpointsHarm(
      e: Env, client: DeltaProtocol.Client, states: seq<LateState>, steps: seq<LateStep>)
    requires EncodingFacts(e) && HashFacts(e) && IsLateRun(e, states, steps) && AllLateFromClient(e, client, steps)
    ensures (forall i: nat :: i < |states| ==> Backed(e, states[i].s.db, states[i].s.blobs)) <==>
            (forall j: nat, m: nat :: j <= m < |steps| ==> !CheckpointHarms(e, states, steps, j, m))
  {
    hide EncodingFacts, HashFacts, Backed, Initial, LateEnabled, LateNext, AllLateFromClient, HarmsAt;
    LatePutsExactly(e, states, steps);
    if forall j: nat, m: nat :: j <= m < |steps| ==> !CheckpointHarms(e, states, steps, j, m) {
      BackedUntilFullHarm(e, client, states, steps, |steps|);
    }
  }
}
