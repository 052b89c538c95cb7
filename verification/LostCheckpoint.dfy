/**
 * Concrete late runs in which a committed full checkpoint is lost: a put of an aborted save lands
 * after the save tried next has committed, or between that save's own put and its commit.
 */
module LostCheckpoint {
  import opened Wrappers
  import opened UpdateModel
  import opened UpdatePlans
  import opened Transactions
  import opened BlobSafety
  import opened StrayPuts

  // --------------------------------------------------------------------- paths

  ghost predicate IsPath(e: Env, states: seq<LateState>, steps: seq<LateStep>) {
    && |states| == |steps| + 1
    && forall i :: 0 <= i < |steps| ==>
         LateEnabled(e, states[i], steps[i]) && states[i + 1] == LateNext(e, states[i], steps[i])
  }

  ghost predicate IsBacked(e: Env, l: LateState) {
    Backed(e, l.s.db, l.s.blobs)
  }

  /** A path on which every row reads back before the last state. */
  ghost predicate Path(e: Env, from: LateState, to: LateState, states: seq<LateState>, steps: seq<LateStep>) {
    && IsPath(e, states, steps) && states[0] == from && states[|steps|] == to
    && forall i :: 0 <= i < |steps| ==> IsBacked(e, states[i])
  }

  ghost predicate Reaches(e: Env, from: LateState, to: LateState) {
    exists states: seq<LateState>, steps: seq<LateStep> :: Path(e, from, to, states, steps)
  }

  lemma Starts(e: Env, a: LateState)
    ensures Reaches(e, a, a)
  {
    assert Path(e, a, a, [a], []);
  }

  lemma Then(e: Env, a: LateState, b: LateState, step: LateStep)
    requires Reaches(e, a, b) && IsBacked(e, b) && LateEnabled(e, b, step)
    ensures Reaches(e, a, LateNext(e, b, step))
  {
    hide LateEnabled, LateNext, IsBacked;
    var states, steps :| Path(e, a, b, states, steps);
    Extends(e, a, b, states, steps, step);
  }

  lemma Extends(
      e: Env, a: LateState, b: LateState, states: seq<LateState>, steps: seq<LateStep>, step: LateStep)
    requires Path(e, a, b, states, steps) && IsBacked(e, b) && LateEnabled(e, b, step)
    ensures Path(e, a, LateNext(e, b, step), states + [LateNext(e, b, step)], steps + [step])
  {
    hide LateEnabled, LateNext, IsBacked;
    var states', steps' := states + [LateNext(e, b, step)], steps + [step];
    forall i | 0 <= i < |steps'|
      ensures LateEnabled(e, states'[i], steps'[i]) && states'[i + 1] == LateNext(e, states'[i], steps'[i])
      ensures IsBacked(e, states'[i])
    {
      if i < |steps| { assert steps'[i] == steps[i] && states'[i] == states[i] && states'[i + 1] == states[i + 1]; }
    }
  }

  // --------------------------------------------------------------------- one request alone

  /** The state with one transaction. */
  function With(l: LateState, tx: Tx): LateState {
    l.(s := l.s.(txs := map[0 := tx]))
  }

  function Fresh(op: Op, held: set<Lock>): Tx {
    Tx(op, 0, held, None, None)
  }

  lemma TakesLock(e: Env, from: LateState, l: LateState, op: Op, held: set<Lock>, lock: Lock)
    requires Reaches(e, from, With(l, Fresh(op, held))) && IsBacked(e, l) && MayRequest(op, held, lock) && lock !in held
    ensures Reaches(e, from, With(l, Fresh(op, held + {lock})))
  {
    hide Reaches, MayRequest;
    var start := With(l, Fresh(op, held));
    var asked := With(l, Fresh(op, held).(waiting := Some(lock)));
    assert LateNext(e, start, Plain(Request(0, lock))) == asked;
    Then(e, from, start, Plain(Request(0, lock)));
    assert LateNext(e, asked, Plain(Grant(0))) == With(l, Fresh(op, held + {lock}));
    Then(e, from, asked, Plain(Grant(0)));
  }

  lemma Begins(e: Env, from: LateState, l: LateState, op: Op)
    requires Reaches(e, from, l) && IsBacked(e, l)
    requires l.s.txs == map[] && NewIds(op) !! l.s.used && BeginsNow(op, l.s.now)
    ensures Reaches(e, from, With(l.(s := l.s.(used := l.s.used + NewIds(op))), Fresh(op, {})))
  {
    hide Reaches, BeginsNow, NewIds;
    var next := With(l.(s := l.s.(used := l.s.used + NewIds(op))), Fresh(op, {}));
    assert LateNext(e, l, Plain(Begin(0, op, 0))) == next;
    Then(e, from, l, Plain(Begin(0, op, 0)));
  }

  function Planned(tx: Tx, at: Time, c: Change): Tx {
    tx.(prepared := Some(Prepared(at, c, {})))
  }

  lemma Prepares(e: Env, from: LateState, l: LateState, op: Op, held: set<Lock>, c: Change)
    requires Reaches(e, from, With(l, Fresh(op, held))) && IsBacked(e, l) && !op.Journal? && Ready(l.s.db, op, held)
    requires Plan(e, op, l.s.now, l.s.db, l.s.blobs) == Success(c)
    ensures Reaches(e, from, With(l, Planned(Fresh(op, held), l.s.now, c)))
  {
    hide Reaches, Ready, Plan;
    var start := With(l, Fresh(op, held));
    assert LateNext(e, start, Plain(Prepare(0))) == With(l, Planned(Fresh(op, held), l.s.now, c));
    Then(e, from, start, Plain(Prepare(0)));
  }

  /** The two states differ in their tables and histories alone. */
  predicate OnlyTables(l: LateState, l': LateState) {
    l'.s.blobs == l.s.blobs && l'.s.now == l.s.now && l'.s.used == l.s.used && l'.strays == l.strays
  }

  lemma Commits(e: Env, from: LateState, l: LateState, op: Op, held: set<Lock>, c: Change) returns (l': LateState)
    requires Reaches(e, from, With(l, Planned(Fresh(op, held), l.s.now, c))) && IsBacked(e, l) && c.puts == map[]
    ensures Reaches(e, from, l') && l'.s.txs == map[] && l'.s.db == After(l.s.db, c) && OnlyTables(l, l')
  {
    hide Reaches, After;
    var start := With(l, Planned(Fresh(op, held), l.s.now, c));
    l' := LateNext(e, start, Plain(Commit(0)));
    Then(e, from, start, Plain(Commit(0)));
  }

  // --------------------------------------------------------------------- the story

  const S: StackId := 0
  const U: UpdateId := UpdateId(S, 0)
  const K: Key := FullKey(U, 1)

  const EMPTY: LateState :=
    LateState(State(0, Db(map[], map[]), map[], {}, map[], map[], {}, {}, []), {})

  /** The update runs and has no checkpoint. */
  predicate Runs(e: Env, l: LateState) {
    && l.s.txs == map[] && l.s.now == 0 && l.s.blobs == map[]
    && l.s.db.updates.Keys == {U} && Leased(l.s.db.updates[U], l.s.now) && l.s.db.updates[U].rows == map[]
  }

  lemma StackAdded(e: Env) returns (l: LateState)
    ensures Reaches(e, EMPTY, l) && l.s.txs == map[] && OnlyTables(EMPTY, l) && l.s.db == Db(map[S := None], map[])
  {
    hide Reaches;
    var op, c := AddStack(S), NO_CHANGE.(active := map[S := None]);
    Starts(e, EMPTY);
    Begins(e, EMPTY, EMPTY, op);
    assert EMPTY.s.used + NewIds(op) == EMPTY.s.used;
    assert {} + {StackLock(S)} == {StackLock(S)};
    TakesLock(e, EMPTY, EMPTY, op, {}, StackLock(S));
    Prepares(e, EMPTY, EMPTY, op, {StackLock(S)}, c);
    l := Commits(e, EMPTY, EMPTY, op, {StackLock(S)}, c);
  }

  lemma Created(e: Env) returns (l: LateState)
    ensures Reaches(e, EMPTY, l) && l.s.txs == map[] && OnlyTables(EMPTY.(s := EMPTY.s.(used := {U})), l)
    ensures l.s.db.active == map[S := Some(U)] && l.s.db.updates.Keys == {U}
    ensures l.s.db.updates[U].status == NotStarted && l.s.db.updates[U].rows == map[]
  {
    hide Reaches, Versions;
    var added := StackAdded(e);
    var op := Create(S, Update, U);
    var c := PlanCreate(added.s.db, S, Update, U, 0).value;
    Begins(e, EMPTY, added, op);
    var using := added.(s := added.s.(used := added.s.used + NewIds(op)));
    assert {} + {StackLock(S)} == {StackLock(S)};
    TakesLock(e, EMPTY, using, op, {}, StackLock(S));
    Prepares(e, EMPTY, using, op, {StackLock(S)}, c);
    l := Commits(e, EMPTY, using, op, {StackLock(S)}, c);
  }

  lemma RunsBacked(e: Env, l: LateState)
    requires l.s.db.updates.Keys == {U} && l.s.db.updates[U].rows == map[]
    ensures IsBacked(e, l)
  {
  }

  lemma Started(e: Env) returns (l: LateState)
    ensures Reaches(e, EMPTY, l) && Runs(e, l)
  {
    hide Reaches;
    var created := Created(e);
    var start := Start(U, 0);
    RunsBacked(e, created);
    var c := PlanStart(e, U, created.s.db.updates[U], 0, 0).value;
    Begins(e, EMPTY, created, start);
    assert created.s.used + NewIds(start) == created.s.used;
    TakesLock(e, EMPTY, created, start, {}, StackLock(S));
    TakesLock(e, EMPTY, created, start, {} + {StackLock(S)}, UpdateLock(U));
    var held := {} + {StackLock(S)} + {UpdateLock(U)};
    Prepares(e, EMPTY, created, start, held, c);
    l := Commits(e, EMPTY, created, start, held, c);
  }

  function BytesFor(e: Env, doc: Doc): Bytes {
    e.encode(e.serialize(doc))
  }

  /** Large enough to be kept in the blob store. */
  predicate Large(e: Env, doc: Doc) {
    CodeUnits(e.serialize(doc)) > e.blobThreshold
  }

  /** The running update's save of `doc`, prepared, with its put done or not. */
  function Saving(e: Env, l: LateState, doc: Doc, put: set<Key>): LateState
    requires Runs(e, l)
  {
    var c := SaveDoc(e, U, l.s.db.updates[U], doc, 0);
    With(l, Tx(Patch(U, doc), 0, {UpdateLock(U)}, None, Some(Prepared(0, c, put))))
  }

  lemma Saves(e: Env, l: LateState, doc: Doc)
    requires Reaches(e, EMPTY, l) && Runs(e, l)
    ensures Reaches(e, EMPTY, Saving(e, l, doc, {}))
  {
    hide Reaches, SaveDoc;
    RunsBacked(e, l);
    var op, c := Patch(U, doc), SaveDoc(e, U, l.s.db.updates[U], doc, 0);
    Begins(e, EMPTY, l, op);
    assert l.s.used + NewIds(op) == l.s.used;
    TakesLock(e, EMPTY, l, op, {}, UpdateLock(U));
    assert {} + {UpdateLock(U)} == {UpdateLock(U)};
    Prepares(e, EMPTY, l, op, {UpdateLock(U)}, c);
  }

  lemma SavedChange(e: Env, row: UpdateRow, doc: Doc)
    requires row.rows == map[] && Large(e, doc)
    ensures var c := SaveDoc(e, U, row, doc, 0);
            && c.puts == map[K := BytesFor(e, doc)] && c.dropped.None?
            && c.rows == map[U := row.(rows := map[1 := Full(doc, Some(K), 0)])]
  {
    hide CodeUnits;
    assert NextVersion(row.rows) == 1;
  }

  /** The save of `doc` with its put done. */
  function Stored(e: Env, l: LateState, doc: Doc): LateState
    requires Runs(e, l)
  {
    var saving := Saving(e, l, doc, {K});
    saving.(s := saving.s.(blobs := map[K := BytesFor(e, doc)]))
  }

  lemma PutsSave(e: Env, l: LateState, doc: Doc)
    requires Runs(e, l) && Large(e, doc)
    ensures LateEnabled(e, Saving(e, l, doc, {}), Plain(PutBlob(0, K)))
    ensures LateNext(e, Saving(e, l, doc, {}), Plain(PutBlob(0, K))) == Stored(e, l, doc)
  {
    hide SaveDoc, Large, BytesFor;
    SavedChange(e, l.s.db.updates[U], doc);
    assert {} + {K} == {K};
    assert map[][K := BytesFor(e, doc)] == map[K := BytesFor(e, doc)];
    assert LateNext(e, Saving(e, l, doc, {}), Plain(PutBlob(0, K))).s == Stored(e, l, doc).s;
  }

  /** A save of `a` aborts while its put is under way; a save of `b` is prepared and has put its own. */
  lemma Retried(e: Env, a: Doc, b: Doc) returns (l: LateState)
    requires Large(e, a) && Large(e, b)
    ensures Runs(e, l) && Stray(K, BytesFor(e, a)) in l.strays && Reaches(e, EMPTY, Stored(e, l, b))
  {
    hide Reaches, SaveDoc, Large, BytesFor;
    var l0 := Started(e);
    Saves(e, l0, a);
    SavedChange(e, l0.s.db.updates[U], a);
    var first := Saving(e, l0, a, {});
    RunsBacked(e, first);
    l := LateNext(e, first, Plain(Abort(0)));
    assert K in first.s.txs[0].prepared.value.change.puts;
    Then(e, EMPTY, first, Plain(Abort(0)));
    Saves(e, l, b);
    SavedChange(e, l.s.db.updates[U], b);
    var second := Saving(e, l, b, {});
    RunsBacked(e, second);
    PutsSave(e, l, b);
    Then(e, EMPTY, second, Plain(PutBlob(0, K)));
  }

  // --------------------------------------------------------------------- the loss

  /** `b` is committed, and reads back as another document. */
  predicate Lost(e: Env, s: State, a: Doc, b: Doc) {
    && a != b && U in s.db.updates && 1 in s.db.updates[U].rows
    && s.db.updates[U].rows[1] == Full(b, Some(K), 0)
    && ReadDoc(e, s.db.updates[U].rows[1], s.blobs) == Some(a)
  }

  lemma Lands(e: Env, l: LateState, bytes: Bytes)
    requires Stray(K, bytes) in l.strays
    ensures LateEnabled(e, l, Land(K, bytes))
    ensures LateNext(e, l, Land(K, bytes)) == l.(s := l.s.(blobs := l.s.blobs[K := bytes]))
  {
  }

  lemma CommitsSave(e: Env, l: LateState, blobs: map<Key, Bytes>, doc: Doc)
    requires Runs(e, l) && Large(e, doc)
    ensures var saving := Saving(e, l, doc, {K});
            var before := saving.(s := saving.s.(blobs := blobs));
            && LateEnabled(e, before, Plain(Commit(0)))
            && var after := LateNext(e, before, Plain(Commit(0)));
            && after.s.blobs == blobs && after.strays == l.strays
            && after.s.db.updates.Keys == {U} && after.s.db.updates[U].rows == map[1 := Full(doc, Some(K), 0)]
  {
    hide SaveDoc, Large, BytesFor;
    SavedChange(e, l.s.db.updates[U], doc);
  }

  lemma SavedBacked(e: Env, l: LateState, doc: Doc)
    requires l.s.db.updates.Keys == {U} && l.s.db.updates[U].rows == map[1 := Full(doc, Some(K), 0)]
    requires l.s.blobs == map[K := BytesFor(e, doc)]
    ensures IsBacked(e, l)
  {
  }

  lemma ReadsAs(e: Env, s: State, a: Doc, b: Doc)
    requires EncodingFacts(e) && a != b
    requires U in s.db.updates && s.db.updates[U].rows == map[1 := Full(b, Some(K), 0)]
    requires K in s.blobs && s.blobs[K] == BytesFor(e, a)
    ensures Lost(e, s, a, b)
  {
    assert e.decode(e.encode(e.serialize(a))) == Some(e.serialize(a));
  }

  /** A late run on which every row reads back until its last step, which loses `b`. */
  ghost predicate LosesAtLast(e: Env, states: seq<LateState>, steps: seq<LateStep>, a: Doc, b: Doc) {
    && IsLateRun(e, states, steps) && steps != []
    && BackedBefore(e, states, |steps|) && Lost(e, states[|steps|].s, a, b)
  }

  lemma LastStep(e: Env, l: LateState, step: LateStep, a: Doc, b: Doc)
    requires Reaches(e, EMPTY, l) && IsBacked(e, l) && LateEnabled(e, l, step) && Lost(e, LateNext(e, l, step).s, a, b)
    ensures exists states: seq<LateState>, steps: seq<LateStep> ::
              LosesAtLast(e, states, steps, a, b) && steps[|steps| - 1] == step
  {
    hide LateEnabled, LateNext, Lost, Backed;
    var states, steps :| Path(e, EMPTY, l, states, steps);
    Extends(e, EMPTY, l, states, steps, step);
    var states', steps' := states + [LateNext(e, l, step)], steps + [step];
    assert LosesAtLast(e, states', steps', a, b) && steps'[|steps'| - 1] == step by {
      forall i: nat | i < |steps'| ensures Backed(e, states'[i].s.db, states'[i].s.blobs) {
        assert IsBacked(e, states'[i]);
      }
    }
  }

  /** The put lands after the second save has committed. */
  lemma LostAfterCommit(e: Env, a: Doc, b: Doc)
    requires EncodingFacts(e) && a != b && Large(e, a) && Large(e, b)
    ensures exists states: seq<LateState>, steps: seq<LateStep> ::
              LosesAtLast(e, states, steps, a, b) && steps[|steps| - 1] == Land(K, BytesFor(e, a))
  {
    hide EncodingFacts, Reaches, Large, BytesFor, LateEnabled, LateNext, LosesAtLast, Lost, IsBacked;
    var l := Retried(e, a, b);
    var stored := Stored(e, l, b);
    RunsBacked(e, stored);
    CommitsSave(e, l, stored.s.blobs, b);
    Then(e, EMPTY, stored, Plain(Commit(0)));
    var committed := LateNext(e, stored, Plain(Commit(0)));
    SavedBacked(e, committed, b);
    Lands(e, committed, BytesFor(e, a));
    ReadsAs(e, LateNext(e, committed, Land(K, BytesFor(e, a))).s, a, b);
    LastStep(e, committed, Land(K, BytesFor(e, a)), a, b);
  }

  /** The put lands between the second save's own put and its commit, when no row is kept under the key. */
  lemma LostByCommit(e: Env, a: Doc, b: Doc)
    requires EncodingFacts(e) && a != b && Large(e, a) && Large(e, b)
    ensures exists states: seq<LateState>, steps: seq<LateStep> ::
              LosesAtLast(e, states, steps, a, b) && steps[|steps| - 1] == Plain(Commit(0))
  {
    hide EncodingFacts, Reaches, Large, BytesFor, LateEnabled, LateNext, LosesAtLast, Lost, IsBacked;
    var l := Retried(e, a, b);
    var stored := Stored(e, l, b);
    RunsBacked(e, stored);
    Lands(e, stored, BytesFor(e, a));
    Then(e, EMPTY, stored, Land(K, BytesFor(e, a)));
    var hit := LateNext(e, stored, Land(K, BytesFor(e, a)));
    RunsBacked(e, hit);
    CommitsSave(e, l, hit.s.blobs, b);
    ReadsAs(e, LateNext(e, hit, Plain(Commit(0))).s, a, b);
    LastStep(e, hit, Plain(Commit(0)), a, b);
  }
}
