/**
 * The service object: each request runs its statements in order on the tables, the blob store and
 * the cache of base documents, and ends as its plan says.
 */
module UpdatesService {
  import opened Wrappers
  import opened UpdateModel
  import opened UpdatePlans
  import opened Transactions
  import JournalLoop
  import JournalStore
  import RefreshPass
  import TextEdits

  /** The request ended as planned: its change is made, blobs put and superseded ones deleted, or nothing is. */
  ghost predicate Served(
      db: Db, blobs: map<Key, Bytes>, db': Db, blobs': map<Key, Bytes>, outcome: Outcome, error: Option<Error>)
  {
    match outcome
    case Success(c) => error.None? && db' == After(db, c) && blobs' == (blobs + c.puts) - c.dooms
    case Failure(x) => error == Some(x) && db' == db && blobs' == blobs
  }

  /** Setting one row is the whole change. */
  lemma RowServed(
      db: Db, blobs: map<Key, Bytes>, u: UpdateId, row: UpdateRow, puts: map<Key, Bytes>, dooms: set<Key>)
    ensures Served(
      db, blobs, Db(db.active, db.updates[u := row]), (blobs + puts) - dooms,
      Success(Change(map[u := row], map[], None, puts, dooms)), None)
  {
    assert db.active + map[] == db.active;
    assert db.updates + map[u := row] == db.updates[u := row];
  }

  lemma NothingServed(db: Db, blobs: map<Key, Bytes>)
    ensures Served(db, blobs, db, blobs, Success(NO_CHANGE), None)
  {
    assert db.active + map[] == db.active && db.updates + map[] == db.updates;
    assert (blobs + map[]) - {} == blobs;
  }

  /** Setting one row and its stack's `active` column is the whole change. */
  lemma LifecycleServed(
      db: Db, blobs: map<Key, Bytes>, u: UpdateId, row: UpdateRow, s: StackId, active: Option<UpdateId>,
      dooms: set<Key>)
    ensures Served(
      db, blobs, Db(db.active[s := active], db.updates[u := row]), blobs - dooms,
      Success(Change(map[u := row], map[s := active], None, map[], dooms)), None)
  {
    assert db.active + map[s := active] == db.active[s := active];
    assert db.updates + map[u := row] == db.updates[u := row];
    assert blobs + map[] == blobs;
  }

  /** The plan of a request on one update, its row looked up. */
  lemma PlanOfRow(e: Env, op: Op, at: Time, db: Db, blobs: map<Key, Bytes>)
    requires OnRow(op) || OnRowAndStack(op)
    ensures Plan(e, op, at, db, blobs) ==
            if op.update !in db.updates then PlanMissing(e, op)
            else PlanRow(e, op, db.updates[op.update], at, ReadBaseline(e, db.updates[op.update].rows, blobs))
  {
  }

  function Announced(row: UpdateRow, yes: bool): UpdateRow {
    if yes then row.(events := row.events + [Ended(Cancelled)]) else row
  }

  function Cleared(row: UpdateRow, yes: bool): UpdateRow {
    if yes then Closed(row, Cancelled) else row
  }

  function Freed(active: Option<UpdateId>, affected: bool, orphans: set<UpdateId>): Option<UpdateId> {
    if affected && active.Some? && active.value in orphans then None else active
  }

  /** The row the load query of a flush may answer with, if any. */
  ghost predicate LoadAnswer(db: Db, u: UpdateId, latest: Option<RowId>) {
    if latest.Some? then Latest(db, u.stack, Some(u), latest.value)
    else forall r: RowId :: !Candidate(db, u.stack, Some(u), r)
  }

  lemma LoadAnswerIsLoaded(
      e: Env, db: Db, blobs: map<Key, Bytes>, u: UpdateId, latest: Option<RowId>, empty: Doc)
    requires LoadAnswer(db, u, latest) && IsEmptyDeployment(empty)
    ensures latest.Some? ==> latest.value.update != u && IsFull(db, latest.value)
    ensures latest.None? ==> Loads(e, db, blobs, u, empty)
    ensures latest.Some? && ReadDoc(e, RowAt(db, latest.value), blobs).Some? ==>
      Loads(e, db, blobs, u, ReadDoc(e, RowAt(db, latest.value), blobs).value)
  {
  }

  const CACHE_LIMIT := 64

  /** A cache that has grown past its limit is emptied before a flush. */
  function Evicted<T>(cache: map<UpdateId, T>): map<UpdateId, T> {
    if |cache| > CACHE_LIMIT then map[] else cache
  }

  class Service {
    const env: Env
    var active: map<StackId, Option<UpdateId>>
    var updates: map<UpdateId, UpdateRow>
    var blobs: map<Key, Bytes>
    var cache: map<UpdateId, JournalLoop.DeploymentObject>
    var collecting: bool

    constructor (env: Env)
      ensures this.env == env && Tables() == Db(map[], map[]) && blobs == map[] && cache == map[]
    {
      this.env := env;
      active, updates, blobs, cache, collecting := map[], map[], map[], map[], false;
    }

    function Tables(): Db
      reads this
    {
      Db(active, updates)
    }

    // ------------------------------------------------------------------- private helpers

    /** Insert a full checkpoint under the update's next version, large ones by way of the blob store. */
    method UpsertCheckpoint(u: UpdateId, doc: Doc, at: Time)
      requires u in updates
      modifies `updates, `blobs
      ensures updates == old(updates)[u := SaveDoc(env, u, old(updates[u]), doc, at).rows[u]]
      ensures blobs == old(blobs) + SaveDoc(env, u, old(updates[u]), doc, at).puts
    {
      var row := updates[u];
      var serialized := env.serialize(doc);
      var version := NextVersion(row.rows);
      if CodeUnits(serialized) > env.blobThreshold {
        var key := FullKey(u, version);
        blobs := blobs[key := env.encode(serialized)];
        updates := updates[u := row.(rows := row.rows[version := Full(doc, Some(key), at)])];
      } else {
        updates := updates[u := row.(rows := row.rows[version := Full(doc, None, at)])];
      }
    }

    /** Replace the baseline row, a large text by way of the blob store. */
    method WriteDeltaBase(u: UpdateId, number: nat, text: Text)
      requires u in updates
      modifies `updates, `blobs
      ensures updates == old(updates)[u :=
        old(updates[u]).(rows := old(updates[u]).rows[DELTA_BASE_VERSION := BaseRow(env, u, number, text)])]
      ensures blobs == old(blobs) + Puts(env, BaseRow(env, u, number, text))
    {
      var row := updates[u];
      var bytes := env.encode(text);
      var key: Option<Key> := None;
      if |bytes| > env.blobThreshold {
        key := Some(BaseKey(u, number));
        blobs := blobs[BaseKey(u, number) := bytes];
      }
      updates := updates[u := row.(rows := row.rows[DELTA_BASE_VERSION := Base(number, text, key)])];
    }

    /** Delete the baseline row and return the key its text was kept under, if any. */
    method DeleteDeltaBase(u: UpdateId) returns (key: Option<Key>)
      requires u in updates
      modifies `updates
      ensures updates == old(updates)[u :=
        old(updates[u]).(rows := old(updates[u]).rows - {DELTA_BASE_VERSION})]
      ensures BaseKeys(old(updates[u]).rows) == if key.Some? then {key.value} else {}
    {
      var row := updates[u];
      key := if DELTA_BASE_VERSION in row.rows then row.rows[DELTA_BASE_VERSION].key else None;
      updates := updates[u := row.(rows := row.rows - {DELTA_BASE_VERSION})];
    }

    method DeleteSuperseded(key: Option<Key>)
      modifies `blobs
      ensures blobs == old(blobs) - if key.Some? then {key.value} else {}
    {
      if key.Some? { blobs := blobs - {key.value}; }
    }

    // ------------------------------------------------------------------- lifecycle

    method CreateUpdate(s: StackId, kind: Kind, id: UpdateId, at: Time) returns (error: Option<Error>)
      modifies `active, `updates
      ensures Served(old(Tables()), old(blobs), Tables(), blobs, PlanCreate(old(Tables()), s, kind, id, at), error)
    {
      hide After, Versions;
      if s !in active { return Some(StackNotFound); }
      if active[s].Some? { return Some(UpdateConflict); }
      var current := MaxOrZero(Versions(Tables(), s, kind == Preview));
      var version := if kind == Preview then current else current + 1;
      updates := updates[id := NewRow(kind, NotStarted, version, at)];
      active := active[s := Some(id)];
      LifecycleServed(old(Tables()), blobs, id, updates[id], s, Some(id), {});
      assert blobs - {} == blobs;
      return None;
    }

    method StartUpdate(u: UpdateId, token: Token, at: Time) returns (error: Option<Error>)
      modifies `active, `updates
      ensures Served(old(Tables()), old(blobs), Tables(), blobs,
          Plan(env, Start(u, token), at, old(Tables()), old(blobs)), error)
    {
      hide After, Plan, ReadBaseline, NextVersion;
      PlanOfRow(env, Start(u, token), at, Tables(), blobs);
      if u !in updates { return Some(UpdateNotFound); }
      var row := updates[u];
      if row.status != NotStarted { return Some(UpdateConflict); }
      var expiry := at + env.leaseSeconds;
      row := row.(status := Running, token := Some(token), lease := Some(expiry), startedAt := Some(at));
      updates := updates[u := row];
      active := active[u.stack := Some(u)];
      updates := updates[u := row.(events := row.events + [Started])];
      LifecycleServed(old(Tables()), blobs, u, updates[u], u.stack, Some(u), {});
      assert blobs - {} == blobs;
      return None;
    }

    /** Close the row, free the stack and announce the end. */
    method Close(u: UpdateId, status: Status)
      requires u in updates
      modifies `active, `updates
      ensures active == old(active)[u.stack := None]
      ensures updates == old(updates)[u :=
        Closed(old(updates[u]), status).(events := old(updates[u]).events + [Ended(status)])]
    {
      updates := updates[u := Closed(updates[u], status)];
      active := active[u.stack := None];
      updates := updates[u := updates[u].(events := updates[u].events + [Ended(status)])];
    }

    method CompleteUpdate(u: UpdateId, status: Status, at: Time) returns (error: Option<Error>)
      modifies `active, `updates, `blobs, `cache
      ensures Served(old(Tables()), old(blobs), Tables(), blobs,
          Plan(env, Complete(u, status), at, old(Tables()), old(blobs)), error)
      ensures error.None? ==> cache == old(cache) - {u}
    {
      hide After, Plan, ReadBaseline, NextVersion;
      PlanOfRow(env, Complete(u, status), at, Tables(), blobs);
      if !Terminal(status) { return Some(BadRequest); }
      if u !in updates { return Some(UpdateNotFound); }
      if updates[u].status != Running { return Some(UpdateConflict); }
      var key := DeleteDeltaBase(u);
      Close(u, status);
      cache := cache - {u};
      DeleteSuperseded(key);
      LifecycleServed(old(Tables()), old(blobs), u, updates[u], u.stack, None, BaseKeys(old(updates[u]).rows));
      return None;
    }

    method CancelUpdate(u: UpdateId, at: Time) returns (error: Option<Error>, cancelled: bool)
      modifies `active, `updates, `blobs, `cache
      ensures Served(old(Tables()), old(blobs), Tables(), blobs,
          Plan(env, Cancel(u), at, old(Tables()), old(blobs)), error)
      ensures cancelled <==> u in old(updates) && !Terminal(old(updates[u]).status)
      ensures error.None? ==> cache == old(cache) - {u}
    {
      hide After, Plan, ReadBaseline, NextVersion;
      PlanOfRow(env, Cancel(u), at, Tables(), blobs);
      if u !in updates { return Some(UpdateNotFound), false; }
      var status := updates[u].status;
      var key := DeleteDeltaBase(u);
      cancelled := !Terminal(status);
      if cancelled { Close(u, Cancelled); }
      cache := cache - {u};
      DeleteSuperseded(key);
      ghost var dooms := BaseKeys(old(updates[u]).rows);
      if cancelled {
        LifecycleServed(old(Tables()), old(blobs), u, updates[u], u.stack, None, dooms);
      } else {
        RowServed(old(Tables()), old(blobs), u, updates[u], map[], dooms);
        assert old(blobs) + map[] == old(blobs);
      }
      return None, cancelled;
    }

    /** The first read and the guarded write see the same row when nothing runs in between. */
    method RenewLease(u: UpdateId, duration: Option<int>, readAt: Time, at: Time) returns (error: Option<Error>)
      requires readAt <= at
      modifies `updates
      ensures u !in old(updates) ==>
        Served(old(Tables()), old(blobs), Tables(), blobs, Failure(UpdateNotFound), error)
      ensures u in old(updates) ==>
        Served(
          old(Tables()), old(blobs), Tables(), blobs,
          if old(updates[u]).token.None? then Failure(LeaseExpired)
          else Plan(env, Renew(u, old(updates[u]).token.value, duration, readAt), at, old(Tables()), old(blobs)),
          error)
    {
      hide After, Plan, ReadBaseline;
      if u !in updates { return Some(UpdateNotFound); }
      var row := updates[u];
      if row.token.None? { return Some(LeaseExpired); }
      PlanOfRow(env, Renew(u, row.token.value, duration, readAt), at, Tables(), blobs);
      if row.lease.Some? && row.lease.value < readAt { return Some(LeaseExpired); }
      var asked := if duration.Some? then duration.value else env.leaseSeconds;
      var seconds := if asked < env.leaseSeconds then asked else env.leaseSeconds;
      if row.status == Running && row.lease.Some? && row.lease.value > at {
        updates := updates[u := row.(lease := Some(readAt + seconds))];
        RowServed(old(Tables()), blobs, u, updates[u], map[], {});
        assert (blobs + map[]) - {} == blobs;
        return None;
      }
      return Some(LeaseExpired);
    }

    // ------------------------------------------------------------------- checkpoints

    method PatchCheckpoint(u: UpdateId, doc: Doc, at: Time) returns (error: Option<Error>)
      modifies `updates, `blobs
      ensures Served(old(Tables()), old(blobs), Tables(), blobs,
          Plan(env, Patch(u, doc), at, old(Tables()), old(blobs)), error)
    {
      if u !in updates { return Some(UpdateNotFound); }
      if !Leased(updates[u], at) { return Some(LeaseExpired); }
      UpsertCheckpoint(u, doc, at);
      RowServed(old(Tables()), old(blobs), u, updates[u], SaveDoc(env, u, old(updates[u]), doc, at).puts, {});
      assert blobs - {} == blobs;
      return None;
    }

    /** Both writes of an accepted save. */
    method SaveRows(u: UpdateId, doc: Doc, number: nat, text: Text, at: Time)
      requires u in updates
      modifies `updates, `blobs
      ensures updates == old(updates)[u := SaveDocAndBase(env, u, old(updates[u]), doc, number, text, at).rows[u]]
      ensures blobs == old(blobs) + SaveDocAndBase(env, u, old(updates[u]), doc, number, text, at).puts
    {
      hide NextVersion, FullRow, BaseRow, Puts;
      UpsertCheckpoint(u, doc, at);
      WriteDeltaBase(u, number, text);
    }

    /** Both writes of an accepted save, then the delete of the baseline it replaced. */
    method SaveWithBase(u: UpdateId, doc: Doc, number: nat, text: Text, at: Time)
      requires u in updates
      modifies `updates, `blobs
      ensures Served(old(Tables()), old(blobs), Tables(), blobs,
          Success(SaveDocAndBase(env, u, old(updates[u]), doc, number, text, at)), None)
    {
      hide After, Served, NextVersion, FullRow, BaseRow, Puts;
      var rows := updates[u].rows;
      var superseded := if DELTA_BASE_VERSION in rows then rows[DELTA_BASE_VERSION].key else None;
      SaveRows(u, doc, number, text, at);
      DeleteSuperseded(superseded);
      ghost var c := SaveDocAndBase(env, u, old(updates[u]), doc, number, text, at);
      assert c == Change(map[u := c.rows[u]], map[], None, c.puts, c.dooms);
      RowServed(old(Tables()), old(blobs), u, c.rows[u], c.puts, c.dooms);
    }

    method PatchCheckpointVerbatim(u: UpdateId, number: nat, text: Text, at: Time) returns (error: Option<Error>)
      modifies `updates, `blobs
      ensures Served(old(Tables()), old(blobs), Tables(), blobs,
          Plan(env, Verbatim(u, number, text), at, old(Tables()), old(blobs)), error)
    {
      var parsed := env.parse(text);
      if parsed.None? { return Some(BadRequest); }
      if u !in updates { return Some(UpdateNotFound); }
      if !Leased(updates[u], at) { return Some(LeaseExpired); }
      var base := ReadBaseline(env, updates[u].rows, blobs);
      if base.Broken? { return Some(BrokenBaseline); }
      var stored := if base.Retained? then Some(base.number) else None;
      match Classify(stored, number, base.Retained? && base.text == text) {
        case Refuse(reason) => return Some(reason);
        case Replay => return None;
        case Apply =>
          SaveWithBase(u, parsed.value, number, text, at);
          return None;
      }
    }

    method PatchCheckpointDelta(
        u: UpdateId, number: nat, edits: seq<TextEdits.TextEdit>, expected: Hash, at: Time)
      returns (error: Option<Error>)
      modifies `updates, `blobs
      ensures Served(old(Tables()), old(blobs), Tables(), blobs,
          Plan(env, Delta(u, number, edits, expected), at, old(Tables()), old(blobs)), error)
    {
      if u !in updates { return Some(UpdateNotFound); }
      if !Leased(updates[u], at) { return Some(LeaseExpired); }
      var base := ReadBaseline(env, updates[u].rows, blobs);
      if base.Broken? { return Some(BrokenBaseline); }
      if base.NoBaseline? { return Some(BadRequest); }
      match Classify(Some(base.number), number, env.hash(env.encode(base.text)) == expected) {
        case Refuse(reason) => return Some(reason);
        case Replay => return None;
        case Apply =>
          var applied := TextEdits.ApplyTextEdits(env.encode(base.text), edits);
          if applied.Failure? { return Some(BadRequest); }
          var text := env.decode(applied.value);
          if text.None? || env.hash(applied.value) != expected { return Some(BadRequest); }
          var parsed := env.parse(text.value);
          if parsed.None? { return Some(BadRequest); }
          SaveWithBase(u, parsed.value, number, text.value, at);
          return None;
      }
    }

    /** `current` is the row the head query answers with, under the stack's lock. */
    method ImportStack(
        s: StackId, doc: Doc, expected: Option<RowId>, current: Option<RowId>, id: UpdateId, at: Time)
      returns (error: Option<Error>)
      requires current.Some? ==> Latest(Tables(), s, None, current.value)
      requires id !in updates
      modifies `updates, `blobs
      ensures Served(
        old(Tables()), old(blobs), Tables(), blobs,
        if s in active && active[s].None? && expected.Some? && expected != current then Failure(ImportConflict)
        else PlanImport(env, old(Tables()), s, doc, expected, id, at),
        error)
    {
      hide After, Latest, FullRow, Puts;
      if s !in active { return Some(StackNotFound); }
      if active[s].Some? { return Some(ImportConflict); }
      if expected.Some? && expected != current { return Some(ImportConflict); }
      var version := MaxOrZero(Versions(Tables(), s, false)) + 1;
      ghost var row := NewRow(Import, Succeeded, version, at);
      updates := updates[id := NewRow(Import, Succeeded, version, at)];
      UpsertCheckpoint(id, doc, at);
      ghost var c := SaveDoc(env, id, row, doc, at);
      assert c == Change(map[id := c.rows[id]], map[], None, c.puts, {});
      assert updates == old(updates)[id := c.rows[id]];
      RowServed(old(Tables()), old(blobs), id, c.rows[id], c.puts, {});
      assert (old(blobs) + c.puts) - {} == blobs;
      return None;
    }

    // ------------------------------------------------------------------- journal

    /** Insert one row per entry; a conflicting sequence number keeps its row. */
    method InsertJournalRows(u: UpdateId, batch: seq<JournalStore.Posted>)
      requires u in updates
      modifies `updates
      ensures updates == old(updates)[u :=
        old(updates[u]).(journal := JournalStore.InsertRows(old(updates[u]).journal, batch))]
      ensures Cached() == old(Cached())
    {
      var journal := updates[u].journal;
      for i := 0 to |batch|
        invariant journal == JournalStore.InsertRows(updates[u].journal, batch[..i])
      {
        assert batch[..i + 1][..i] == batch[..i];
        if batch[i].sequenceId !in journal {
          journal := journal[batch[i].sequenceId := batch[i].entry];
        }
      }
      assert batch[..|batch|] == batch;
      updates := updates[u := updates[u].(journal := journal)];
    }

    /** The resources the cached documents list. */
    ghost function CachedResources(): (all: set<RefreshPass.ResourceObject>)
      reads `cache
      ensures forall u <- cache, i | 0 <= i < |cache[u].Listed()| :: cache[u].Listed()[i] in all
    {
      assert forall u <- cache, i | 0 <= i < |cache[u].Listed()| :: cache[u].Listed()[i] in cache[u].Listed();
      set u, o | u in cache && o in cache[u].Listed() :: o
    }

    /** The cached base documents, as they stand. */
    ghost function Cached(): map<UpdateId, Doc>
      reads `cache, cache.Values, CachedResources()
    {
      map u | u in cache :: cache[u].Value()
    }

    method EvictStaleCaches()
      modifies `cache
      ensures cache == Evicted(old(cache)) && Cached() == Evicted(old(Cached())) && Cached().Keys == cache.Keys
    {
      assert Cached().Keys == cache.Keys;
      if |cache| > CACHE_LIMIT { cache := map[]; }
    }

    /** What the load query's row, or its absence, gives; none if the row cannot be read. */
    function LoadedDoc(latest: Option<RowId>, empty: Doc): Option<Doc>
      requires latest.Some? ==> IsFull(Tables(), latest.value)
      reads this
    {
      if latest.Some? then ReadDoc(env, RowAt(Tables(), latest.value), blobs) else Some(empty)
    }

    method Remember(u: UpdateId, doc: Doc)
      modifies `cache
      ensures u in cache && Cached() == old(Cached())[u := doc]
    {
      var read := JournalLoop.ReadDeployment(doc);
      cache := cache[u := read];
    }

    /** Load and cache the base of an update, unless it is cached; nothing is cached if it cannot be read. */
    method CacheBase(u: UpdateId, latest: Option<RowId>, empty: Doc) returns (cached: bool)
      requires latest.Some? ==> IsFull(Tables(), latest.value)
      modifies `cache
      ensures var doc := if u in old(cache) then Some(old(Cached())[u]) else old(LoadedDoc(latest, empty));
              && cached == doc.Some? == (u in cache)
              && Cached() == if doc.Some? then old(Cached())[u := doc.value] else old(Cached())
    {
      hide ReadDoc, IsFull;
      cached := u in cache;
      if cached {
        assert Cached() == Cached()[u := Cached()[u]];
      } else {
        var doc := LoadedDoc(latest, empty);
        cached := doc.Some?;
        if cached { Remember(u, doc.value); }
      }
    }

    /** Save the replay of the stored journal on a cached base; the cached documents stay as they are. */
    method SaveReplay(u: UpdateId, at: Time)
      requires u in updates && u in cache
      modifies `updates, `blobs
      ensures Cached() == old(Cached())
      ensures var change := SaveDoc(
                env, u, old(updates[u]), JournalStore.Flushed(old(Cached())[u], old(updates[u]).journal), at);
              updates == old(updates)[u := change.rows[u]] && blobs == old(blobs) + change.puts
    {
      hide JournalStore.InOrder, JournalLoop.JournalReplay.Replayed, FullRow, Puts, NextVersion;
      var reconstructed := JournalLoop.ReplayStored(cache[u], JournalStore.InOrder(updates[u].journal));
      UpsertCheckpoint(u, reconstructed.Value(), at);
    }

    /** Replay what is stored on the base and save the result; nothing is saved if the base cannot be read. */
    method FlushJournal(u: UpdateId, latest: Option<RowId>, empty: Doc, at: Time) returns (flushed: bool)
      requires u in updates
      requires latest.Some? ==> IsFull(Tables(), latest.value)
      modifies `updates, `blobs, `cache
      ensures
        var cached, row := Evicted(old(Cached())), old(updates[u]);
        var doc := if u in cached then Some(cached[u]) else old(LoadedDoc(latest, empty));
        if doc.None? then
          !flushed && updates == old(updates) && blobs == old(blobs) && Cached() == cached
        else
          var change := SaveDoc(env, u, row, JournalStore.Flushed(doc.value, row.journal), at);
          && flushed && Cached() == cached[u := doc.value]
          && updates == old(updates)[u := change.rows[u]] && blobs == old(blobs) + change.puts
    {
      hide ReadDoc, FullRow, Puts, NextVersion, JournalStore.Flushed, Evicted, Cached;
      EvictStaleCaches();
      flushed := CacheBase(u, latest, empty);
      if flushed { SaveReplay(u, at); }
    }

    method RollBack(before: map<UpdateId, UpdateRow>)
      modifies `updates
      ensures updates == before && Cached() == old(Cached())
    {
      updates := before;
    }

    /** Insert a batch and flush; both are rolled back when the base cannot be read. */
    method AppendAndFlush(
        u: UpdateId, batch: seq<JournalStore.Posted>, latest: Option<RowId>, empty: Doc, at: Time)
      returns (flushed: bool)
      requires u in updates
      requires latest.Some? ==> latest.value.update != u && IsFull(Tables(), latest.value)
      modifies `updates, `blobs, `cache
      ensures
        var cached := Evicted(old(Cached()));
        var doc := if u in cached then Some(cached[u]) else old(LoadedDoc(latest, empty));
        if doc.None? then
          !flushed && Tables() == old(Tables()) && blobs == old(blobs) && Cached() == cached
        else
          var row := old(updates[u]).(journal := JournalStore.InsertRows(old(updates[u]).journal, batch));
          && flushed && Cached() == cached[u := doc.value]
          && Served(old(Tables()), old(blobs), Tables(), blobs,
               Success(SaveDoc(env, u, row, JournalStore.Flushed(doc.value, row.journal), at)), None)
    {
      hide After, ReadDoc, NextVersion, JournalStore.InsertRows, JournalStore.Flushed, FullRow, Puts, Evicted, Cached,
        Served;
      ghost var cached := Evicted(Cached());
      ghost var doc := if u in cached then Some(cached[u]) else LoadedDoc(latest, empty);
      var before := updates;
      InsertJournalRows(u, batch);
      ghost var row := updates[u];
      flushed := FlushJournal(u, latest, empty, at);
      if !flushed {
        RollBack(before);
        return;
      }
      ghost var c := SaveDoc(env, u, row, JournalStore.Flushed(doc.value, row.journal), at);
      assert updates == before[u := c.rows[u]] && c == Change(map[u := c.rows[u]], map[], None, c.puts, {});
      RowServed(old(Tables()), old(blobs), u, c.rows[u], c.puts, {});
      assert (old(blobs) + c.puts) - {} == blobs;
    }

    /** The batch is inserted and then written through to a checkpoint. */
    predicate ReachesFlush(u: UpdateId, batch: seq<JournalStore.Posted>, at: Time)
      reads this
    {
      u in updates && Leased(updates[u], at) && JournalStore.HasNonElided(batch)
    }

    /**
     * `latest` is the row the load query answers with and `empty` the deployment made when there is
     * none. A base that cannot be read rolls the batch back.
     */
    method AppendJournalEntries(
        u: UpdateId, batch: seq<JournalStore.Posted>, latest: Option<RowId>, empty: Doc, at: Time)
      returns (error: Option<Error>)
      requires LoadAnswer(Tables(), u, latest) && IsEmptyDeployment(empty)
      modifies `updates, `blobs, `cache
      ensures old(ReachesFlush(u, batch, at)) ==>
        var cached := Evicted(old(Cached()));
        var doc := if u in cached then Some(cached[u]) else old(LoadedDoc(latest, empty));
        if doc.None? then
          error == Some(UnreadableBase) && Tables() == old(Tables()) && blobs == old(blobs) && Cached() == cached
        else
          && error.None? && Cached() == cached[u := doc.value]
          && Served(old(Tables()), old(blobs), Tables(), blobs,
               Plan(env, Journal(u, batch, doc.value), at, old(Tables()), old(blobs)), error)
          && (u in cached || Loads(env, old(Tables()), old(blobs), u, doc.value))
      ensures !old(ReachesFlush(u, batch, at)) ==>
        && Cached() == old(Cached())
        && Served(old(Tables()), old(blobs), Tables(), blobs,
             Plan(env, Journal(u, batch, empty), at, old(Tables()), old(blobs)), error)
    {
      hide After, Plan, ReadBaseline, ReadDoc, NextVersion, JournalStore.InsertRows, JournalStore.Flushed, FullRow,
        Puts, Evicted, Cached, Loads, Latest;
      LoadAnswerIsLoaded(env, Tables(), blobs, u, latest, empty);
      ghost var cached := Evicted(Cached());
      ghost var doc := if u in cached then Some(cached[u]) else LoadedDoc(latest, empty);
      ghost var base := if doc.Some? then doc.value else empty;
      PlanOfRow(env, Journal(u, batch, base), at, Tables(), blobs);
      PlanOfRow(env, Journal(u, batch, empty), at, Tables(), blobs);
      if batch == [] {
        NothingServed(Tables(), blobs);
        return None;
      }
      if u !in updates { return Some(UpdateNotFound); }
      if !Leased(updates[u], at) { return Some(LeaseExpired); }
      if JournalStore.HasNonElided(batch) {
        var flushed := AppendAndFlush(u, batch, latest, empty, at);
        return if flushed then None else Some(UnreadableBase);
      }
      InsertJournalRows(u, batch);
      RowServed(old(Tables()), old(blobs), u, updates[u], map[], {});
      assert (old(blobs) + map[]) - {} == blobs;
      return None;
    }

    // ------------------------------------------------------------------- sweep

    /** Announce the cancellation of each update in turn. */
    method Announce(us: set<UpdateId>)
      requires us <= updates.Keys
      modifies `updates
      ensures updates == map u | u in old(updates) :: Announced(old(updates)[u], u in us)
    {
      ghost var before := updates;
      var toAnnounce := us;
      while toAnnounce != {}
        invariant toAnnounce <= us && updates.Keys == before.Keys
        invariant forall u <- before :: updates[u] == Announced(before[u], u in us && u !in toAnnounce)
        decreases |toAnnounce|
      {
        var u :| u in toAnnounce;
        updates := updates[u := updates[u].(events := updates[u].events + [Ended(Cancelled)])];
        toAnnounce := toAnnounce - {u};
      }
    }

    method CancelExpired(now: Time) returns (expired: set<UpdateId>)
      modifies `updates
      ensures expired == set u | u in old(updates) && u.stack in active && Expired(env, old(updates)[u], now)
      ensures updates == map u | u in old(updates) :: Cleared(old(updates)[u], u in expired)
    {
      hide Expired, Closed;
      expired := set u | u in updates && u.stack in active && Expired(env, updates[u], now);
      updates := map u | u in updates :: Cleared(updates[u], u in expired);
    }

    method CancelStale(now: Time) returns (stale: set<UpdateId>)
      modifies `updates
      ensures stale == set u | u in old(updates) && u.stack in active && Stale(env, old(updates)[u], now)
      ensures updates == map u | u in old(updates) :: Cleared(old(updates)[u], u in stale)
    {
      hide Stale, Closed;
      stale := set u | u in updates && u.stack in active && Stale(env, updates[u], now);
      updates := map u | u in updates :: Cleared(updates[u], u in stale);
    }

    method FreeStacks(orphans: set<UpdateId>)
      modifies `active
      ensures active == map s | s in old(active) ::
        Freed(old(active)[s], s in (set u: UpdateId | u in orphans :: u.stack), orphans)
    {
      var affected: set<StackId> := set u: UpdateId | u in orphans :: u.stack;
      active := map s | s in active :: Freed(active[s], s in affected, orphans);
    }

    /** The statements of a cycle: cancel expired and stale updates, announce the expired ones, free the stacks. */
    method CancelOrphans(now: Time)
      modifies `active, `updates
      ensures Tables() == After(
        old(Tables()), SweepChange(env, old(Tables()), old(active).Keys, old(updates).Keys, now))
    {
      hide Expired, Stale, Closed, Freed, Cleared, Announced, SweepChange;
      var expired := CancelExpired(now);
      ghost var first := updates;
      var stale := CancelStale(now);
      Announce(expired);
      FreeStacks(expired + stale);
      SweptRows(env, old(Tables()), first, updates, expired, stale, now);
      FreedStacks(env, old(Tables()), active, expired + stale, now);
      NothingDropped(env, old(Tables()), now);
    }

    /**
     * One cycle run alone. It does nothing while another cycle of this worker runs, or when another
     * worker holds the advisory lock; `acquired` is the answer of the try-lock.
     */
    method RunCycle(acquired: bool, now: Time)
      modifies `active, `updates, `collecting
      ensures Tables() == if old(collecting) || !acquired then old(Tables()) else After(
        old(Tables()), SweepChange(env, old(Tables()), old(active).Keys, old(updates).Keys, now))
      ensures collecting == old(collecting)
    {
      if collecting { return; }
      collecting := true;
      if acquired { CancelOrphans(now); }
      collecting := false;
    }
  }

  lemma NothingDropped(e: Env, db: Db, now: Time)
    ensures SweepChange(e, db, db.active.Keys, db.updates.Keys, now).dropped.None?
  {
  }

  lemma ClosedIsNotStale(e: Env, row: UpdateRow, now: Time)
    ensures !Stale(e, Closed(row, Cancelled), now)
    ensures Expired(e, row, now) ==> !Stale(e, row, now)
  {
  }

  lemma SweptRows(
      e: Env, db: Db, first: map<UpdateId, UpdateRow>, after: map<UpdateId, UpdateRow>,
      expired: set<UpdateId>, stale: set<UpdateId>, now: Time)
    requires first.Keys == after.Keys == db.updates.Keys
    requires expired == set u | u in db.updates && u.stack in db.active && Expired(e, db.updates[u], now)
    requires forall u <- db.updates :: first[u] == Cleared(db.updates[u], u in expired)
    requires stale == set u | u in first && u.stack in db.active && Stale(e, first[u], now)
    requires forall u <- db.updates :: after[u] == Announced(Cleared(first[u], u in stale), u in expired)
    ensures expired + stale == Orphans(e, db, db.active.Keys, db.updates.Keys, now)
    ensures after == db.updates + SweepChange(e, db, db.active.Keys, db.updates.Keys, now).rows
  {
    hide Expired, Stale;
    var c := SweepChange(e, db, db.active.Keys, db.updates.Keys, now);
    forall u <- db.updates
      ensures u in stale <==> u.stack in db.active && Stale(e, db.updates[u], now)
      ensures u in stale ==> u !in expired
    {
      ClosedIsNotStale(e, db.updates[u], now);
    }
    assert expired + stale == Orphans(e, db, db.active.Keys, db.updates.Keys, now);
    forall u <- db.updates ensures after[u] == (db.updates + c.rows)[u] {
      assert u in c.rows <==> u in expired || u in stale;
    }
  }

  lemma FreedStacks(
      e: Env, db: Db, after: map<StackId, Option<UpdateId>>, orphans: set<UpdateId>, now: Time)
    requires orphans == Orphans(e, db, db.active.Keys, db.updates.Keys, now)
    requires after == map s | s in db.active ::
      Freed(db.active[s], s in (set u: UpdateId | u in orphans :: u.stack), orphans)
    ensures after == db.active + SweepChange(e, db, db.active.Keys, db.updates.Keys, now).active
  {
  }
}
