/**
 * What each request does to the tables, as a function of the rows it reads: the change a
 * transaction is going to commit, or the error it is rejected with.
 */
module UpdatePlans {
  import opened Wrappers
  import opened UpdateModel
  import JournalStore
  import TextEdits

  type Outcome = Result<Change, Error>

  // --------------------------------------------------------------------- checkpoint rows

  function NextVersion(rows: map<nat, Row>): nat {
    MaxOrZero(rows.Keys) + 1
  }

  function FullRow(e: Env, u: UpdateId, version: nat, doc: Doc, at: Time): Row {
    Full(doc, if CodeUnits(e.serialize(doc)) > e.blobThreshold then Some(FullKey(u, version)) else None, at)
  }

  function BaseRow(e: Env, u: UpdateId, number: nat, text: Text): Row {
    Base(number, text, if |e.encode(text)| > e.blobThreshold then Some(BaseKey(u, number)) else None)
  }

  /** The bytes a row with a key stands for. */
  function BytesOf(e: Env, r: Row): Bytes {
    match r
    case Full(doc, _, _) => e.encode(e.serialize(doc))
    case Base(_, text, _) => e.encode(text)
  }

  function Puts(e: Env, r: Row): map<Key, Bytes> {
    if r.key.Some? then map[r.key.value := BytesOf(e, r)] else map[]
  }

  function BaseKeys(rows: map<nat, Row>): set<Key> {
    if DELTA_BASE_VERSION in rows && rows[DELTA_BASE_VERSION].key.Some?
    then {rows[DELTA_BASE_VERSION].key.value} else {}
  }

  /** The retained baseline as a request reads it. */
  datatype Baseline = NoBaseline | Retained(number: nat, text: Text) | Broken

  /** The baseline row, its text fetched from the blob store when the row has a key. */
  function ReadBaseline(e: Env, rows: map<nat, Row>, blobs: map<Key, Bytes>): Baseline {
    if DELTA_BASE_VERSION !in rows then NoBaseline
    else
      match rows[DELTA_BASE_VERSION]
      case Full(_, _, _) => Broken
      case Base(number, text, None) => Retained(number, text)
      case Base(number, _, Some(key)) =>
        if key !in blobs then Broken
        else
          match e.decode(blobs[key])
          case None => Broken
          case Some(text) => Retained(number, text)
  }

  /** The document of a full checkpoint row, fetched from the blob store when the row has a key. */
  function ReadDoc(e: Env, r: Row, blobs: map<Key, Bytes>): Option<Doc>
    requires r.Full?
  {
    if r.key.None? then Some(r.doc)
    else if r.key.value !in blobs then None
    else
      match e.decode(blobs[r.key.value])
      case None => None
      case Some(text) => e.parse(text)
  }

  // --------------------------------------------------------------------- checkpoint sequencing

  datatype Decision = Apply | Replay | Refuse(error: Error)

  function Classify(stored: Option<nat>, number: nat, isStored: bool): Decision {
    if stored.None? then Decision.Apply
    else if number < stored.value then Refuse(StaleSequence)
    else if number == stored.value then if isStored then Replay else Refuse(ConflictingContent)
    else if number > stored.value + 1 then Refuse(OutOfOrder)
    else Decision.Apply
  }

  // --------------------------------------------------------------------- one update's row

  predicate Leased(row: UpdateRow, at: Time) {
    row.status == Running && row.token.Some? && (row.lease.Some? ==> row.lease.value >= at)
  }

  function SaveDoc(e: Env, u: UpdateId, row: UpdateRow, doc: Doc, at: Time): Change {
    var v := NextVersion(row.rows);
    var r := FullRow(e, u, v, doc, at);
    NO_CHANGE.(rows := map[u := row.(rows := row.rows[v := r])], puts := Puts(e, r))
  }

  function SaveDocAndBase(e: Env, u: UpdateId, row: UpdateRow, doc: Doc, number: nat, text: Text, at: Time): Change {
    var v := NextVersion(row.rows);
    var r, b := FullRow(e, u, v, doc, at), BaseRow(e, u, number, text);
    NO_CHANGE.(
      rows := map[u := row.(rows := row.rows[v := r][DELTA_BASE_VERSION := b])],
      puts := Puts(e, r) + Puts(e, b),
      dooms := BaseKeys(row.rows))
  }

  function PlanPatch(e: Env, u: UpdateId, row: UpdateRow, doc: Doc, at: Time): Outcome {
    if !Leased(row, at) then Failure(LeaseExpired) else Success(SaveDoc(e, u, row, doc, at))
  }

  function PlanVerbatim(e: Env, u: UpdateId, row: UpdateRow, number: nat, text: Text, at: Time, base: Baseline)
    : Outcome
  {
    if e.parse(text).None? then Failure(BadRequest)
    else if !Leased(row, at) then Failure(LeaseExpired)
    else if base.Broken? then Failure(BrokenBaseline)
    else
      var stored := if base.Retained? then Some(base.number) else None;
      match Classify(stored, number, base.Retained? && base.text == text)
      case Refuse(error) => Failure(error)
      case Replay => Success(NO_CHANGE)
      case Apply => Success(SaveDocAndBase(e, u, row, e.parse(text).value, number, text, at))
  }

  /** The text a delta makes of the baseline: in-bounds edits, valid UTF-8 and the client's hash. */
  function Edited(e: Env, baseText: Text, edits: seq<TextEdits.TextEdit>, expected: Hash): Option<Text> {
    match TextEdits.Outcome(e.encode(baseText), edits)
    case Failure(_) => None
    case Success(bytes) => if e.hash(bytes) == expected then e.decode(bytes) else None
  }

  function PlanDelta(
      e: Env, u: UpdateId, row: UpdateRow, number: nat, edits: seq<TextEdits.TextEdit>, expected: Hash,
      at: Time, base: Baseline): Outcome
  {
    if !Leased(row, at) then Failure(LeaseExpired)
    else if base.Broken? then Failure(BrokenBaseline)
    else if base.NoBaseline? then Failure(BadRequest)
    else
      match Classify(Some(base.number), number, e.hash(e.encode(base.text)) == expected)
      case Refuse(error) => Failure(error)
      case Replay => Success(NO_CHANGE)
      case Apply =>
        match Edited(e, base.text, edits, expected)
        case None => Failure(BadRequest)
        case Some(text) =>
          if e.parse(text).None? then Failure(BadRequest)
          else Success(SaveDocAndBase(e, u, row, e.parse(text).value, number, text, at))
  }

  function PlanJournal(
      e: Env, u: UpdateId, row: UpdateRow, batch: seq<JournalStore.Posted>, base: Doc, at: Time): Outcome
  {
    if batch == [] then Success(NO_CHANGE)
    else if !Leased(row, at) then Failure(LeaseExpired)
    else
      var stored := JournalStore.InsertRows(row.journal, batch);
      var row' := row.(journal := stored);
      if JournalStore.HasNonElided(batch)
      then Success(SaveDoc(e, u, row', JournalStore.Flushed(base, stored), at))
      else Success(NO_CHANGE.(rows := map[u := row']))
  }

  function PlanRenew(e: Env, u: UpdateId, row: UpdateRow, seen: Token, duration: Option<int>, readAt: Time, at: Time)
    : Outcome
  {
    if row.status == Running && row.token == Some(seen) && row.lease.Some? && row.lease.value > at then
      var asked := if duration.Some? then duration.value else e.leaseSeconds;
      var seconds := if asked < e.leaseSeconds then asked else e.leaseSeconds;
      Success(NO_CHANGE.(rows := map[u := row.(lease := Some(readAt + seconds))]))
    else Failure(LeaseExpired)
  }

  function PlanStart(e: Env, u: UpdateId, row: UpdateRow, token: Token, at: Time): Outcome {
    if row.status != NotStarted then Failure(UpdateConflict)
    else
      Success(NO_CHANGE.(
        rows := map[u := row.(
          status := Running,
          token := Some(token),
          lease := Some(at + e.leaseSeconds),
          startedAt := Some(at),
          events := row.events + [Started])],
        active := map[u.stack := Some(u)]))
  }

  /** A row moved to a terminal status. */
  function Closed(row: UpdateRow, status: Status): UpdateRow {
    row.(status := status, token := None, lease := None)
  }

  function PlanComplete(u: UpdateId, row: UpdateRow, status: Status): Outcome {
    if !Terminal(status) then Failure(BadRequest)
    else if row.status != Running then Failure(UpdateConflict)
    else
      Success(NO_CHANGE.(
        rows := map[u := Closed(row, status).(
          rows := row.rows - {DELTA_BASE_VERSION},
          events := row.events + [Ended(status)])],
        active := map[u.stack := None],
        dooms := BaseKeys(row.rows)))
  }

  function PlanCancel(u: UpdateId, row: UpdateRow): Outcome {
    var bare := row.(rows := row.rows - {DELTA_BASE_VERSION});
    if Terminal(row.status) then
      Success(NO_CHANGE.(rows := map[u := bare], dooms := BaseKeys(row.rows)))
    else
      Success(NO_CHANGE.(
        rows := map[u := Closed(bare, Cancelled).(events := row.events + [Ended(Cancelled)])],
        active := map[u.stack := None],
        dooms := BaseKeys(row.rows)))
  }

  // --------------------------------------------------------------------- a whole stack

  /** The versions of a stack's non-preview updates. */
  function Versions(db: Db, s: StackId, onlySucceeded: bool): set<nat> {
    set u | u in db.updates && u.stack == s && db.updates[u].kind != Preview
            && (onlySucceeded ==> db.updates[u].status == Succeeded)
      :: db.updates[u].version
  }

  predicate IsFull(db: Db, r: RowId) {
    && r.update in db.updates
    && r.version in db.updates[r.update].rows
    && db.updates[r.update].rows[r.version].Full?
  }

  function RowAt(db: Db, r: RowId): Row
    requires IsFull(db, r)
  {
    db.updates[r.update].rows[r.version]
  }

  /** The full checkpoint rows of a stack, those of one update left out when one is named. */
  predicate Candidate(db: Db, s: StackId, except: Option<UpdateId>, r: RowId) {
    r.update.stack == s && Some(r.update) != except && IsFull(db, r)
  }

  /** A candidate that no other candidate was created after. */
  ghost predicate Latest(db: Db, s: StackId, except: Option<UpdateId>, r: RowId) {
    && Candidate(db, s, except, r)
    && forall o: RowId :: Candidate(db, s, except, o) ==> RowAt(db, o).createdAt <= RowAt(db, r).createdAt
  }

  predicate HasResourcesIn(r: Row)
    requires r.Full?
  {
    r.key.Some? || (r.doc.resources.Some? && |r.doc.resources.value| > 0)
  }

  /** An unforced deletion is refused while the stack's latest checkpoint holds resources. */
  ghost predicate Populated(db: Db, s: StackId) {
    && (exists r: RowId :: Candidate(db, s, None, r))
    && forall r: RowId :: Latest(db, s, None, r) ==> HasResourcesIn(RowAt(db, r))
  }

  function NewRow(kind: Kind, status: Status, version: nat, at: Time): UpdateRow {
    UpdateRow(kind, status, version, None, None, at, None, map[], map[], [])
  }

  function PlanAddStack(db: Db, s: StackId): Outcome {
    if s in db.active then Failure(UpdateConflict) else Success(NO_CHANGE.(active := map[s := None]))
  }

  function PlanCreate(db: Db, s: StackId, kind: Kind, id: UpdateId, at: Time): Outcome {
    if s !in db.active then Failure(StackNotFound)
    else if db.active[s].Some? then Failure(UpdateConflict)
    else
      var current := MaxOrZero(Versions(db, s, kind == Preview));
      var version := if kind == Preview then current else current + 1;
      Success(NO_CHANGE.(rows := map[id := NewRow(kind, NotStarted, version, at)], active := map[s := Some(id)]))
  }

  ghost function PlanImport(e: Env, db: Db, s: StackId, doc: Doc, head: Option<RowId>, id: UpdateId,
      at: Time): Outcome {
    if s !in db.active then Failure(StackNotFound)
    else if db.active[s].Some? then Failure(ImportConflict)
    else if head.Some? && !Latest(db, s, None, head.value) then Failure(ImportConflict)
    else
      var row := NewRow(Import, Succeeded, MaxOrZero(Versions(db, s, false)) + 1, at);
      Success(SaveDoc(e, id, row, doc, at))
  }

  /** A row of another stack refers to the key. */
  predicate ReferredElsewhere(db: Db, s: StackId, k: Key) {
    exists u <- db.updates :: u.stack != s && exists v <- db.updates[u].rows :: db.updates[u].rows[v].key == Some(k)
  }

  function Keys(rows: map<nat, Row>): set<Key> {
    set v | v in rows && rows[v].key.Some? :: rows[v].key.value
  }

  function StackKeys(db: Db, s: StackId): set<Key> {
    set u, k | u in db.updates && u.stack == s && k in Keys(db.updates[u].rows) :: k
  }

  /** The keys a stack's deletion queues for cleanup. */
  function OrphanKeys(db: Db, s: StackId): set<Key> {
    set k | k in StackKeys(db, s) && !ReferredElsewhere(db, s, k)
  }

  ghost function PlanDelete(db: Db, s: StackId, force: bool): Outcome {
    if s !in db.active then Failure(StackNotFound)
    else if !force && db.active[s].Some? then Failure(UpdateConflict)
    else if !force && Populated(db, s) then Failure(HasResources)
    else
      Success(NO_CHANGE.(dropped := Some(s), dooms := OrphanKeys(db, s)))
  }

  // --------------------------------------------------------------------- the sweep

  predicate Expired(e: Env, row: UpdateRow, readAt: Time) {
    row.status == Running && row.lease.Some? && row.lease.value < readAt - e.graceSeconds
  }

  predicate Stale(e: Env, row: UpdateRow, readAt: Time) {
    (row.status == NotStarted || row.status == Requested) && row.createdAt < readAt - e.staleSeconds
  }

  function Swept(e: Env, row: UpdateRow, readAt: Time): UpdateRow {
    if Expired(e, row, readAt) then Closed(row, Cancelled).(events := row.events + [Ended(Cancelled)])
    else Closed(row, Cancelled)
  }

  /** The chosen updates that still meet the condition when their rows are written. */
  function Orphans(e: Env, db: Db, stacks: set<StackId>, chosen: set<UpdateId>, readAt: Time): set<UpdateId> {
    set u | u in chosen && u in db.updates && u.stack in stacks
            && (Expired(e, db.updates[u], readAt) || Stale(e, db.updates[u], readAt))
  }

  function SweepChange(e: Env, db: Db, stacks: set<StackId>, chosen: set<UpdateId>, readAt: Time): Change {
    var orphans := Orphans(e, db, stacks, chosen, readAt);
    var freed := set u | u in orphans && u.stack in db.active && db.active[u.stack].Some?
                         && db.active[u.stack].value in orphans :: u.stack;
    NO_CHANGE.(
      rows := map u | u in orphans :: Swept(e, db.updates[u], readAt),
      active := map s | s in freed :: None)
  }

  // --------------------------------------------------------------------- every request

  predicate OnRow(op: Op) {
    op.Renew? || op.Patch? || op.Verbatim? || op.Delta? || op.Journal?
  }

  predicate OnRowAndStack(op: Op) {
    op.Start? || op.Complete? || op.Cancel?
  }

  function PlanRow(e: Env, op: Op, row: UpdateRow, at: Time, base: Baseline): Outcome
    requires OnRow(op) || OnRowAndStack(op)
  {
    match op
    case Start(u, token) => PlanStart(e, u, row, token, at)
    case Complete(u, status) => PlanComplete(u, row, status)
    case Cancel(u) => PlanCancel(u, row)
    case Renew(u, seen, duration, readAt) => PlanRenew(e, u, row, seen, duration, readAt, at)
    case Patch(u, doc) => PlanPatch(e, u, row, doc, at)
    case Verbatim(u, number, text) => PlanVerbatim(e, u, row, number, text, at, base)
    case Delta(u, number, edits, expected) => PlanDelta(e, u, row, number, edits, expected, at, base)
    case Journal(u, batch, doc) => PlanJournal(e, u, row, batch, doc, at)
  }

  /** A request for an update that does not exist fails, unless it is answered before the lookup. */
  function PlanMissing(e: Env, op: Op): Outcome
    requires OnRow(op) || OnRowAndStack(op)
  {
    if op.Verbatim? && e.parse(op.text).None? then Failure(BadRequest)
    else if op.Complete? && !Terminal(op.status) then Failure(BadRequest)
    else if op.Journal? && op.batch == [] then Success(NO_CHANGE)
    else Failure(UpdateNotFound)
  }

  /** The outcome of a request against the committed tables, given the baseline it reads. */
  ghost function PlanWith(e: Env, op: Op, at: Time, db: Db, base: Baseline): Outcome {
    match op
    case AddStack(s) => PlanAddStack(db, s)
    case Create(s, kind, id) => PlanCreate(db, s, kind, id, at)
    case ImportDoc(s, doc, head, id) => PlanImport(e, db, s, doc, head, id, at)
    case Delete(s, force) => PlanDelete(db, s, force)
    case Sweep(stacks, chosen, readAt) => Success(SweepChange(e, db, stacks, chosen, readAt))
    case _ =>
      if op.update !in db.updates then PlanMissing(e, op)
      else PlanRow(e, op, db.updates[op.update], at, base)
  }

  function RowsOf(op: Op, db: Db): map<nat, Row> {
    if (OnRow(op) || OnRowAndStack(op)) && op.update in db.updates then db.updates[op.update].rows else map[]
  }

  /** The outcome against the committed tables and the blob store at one time. */
  ghost function Plan(e: Env, op: Op, at: Time, db: Db, blobs: map<Key, Bytes>): Outcome {
    PlanWith(e, op, at, db, ReadBaseline(e, RowsOf(op, db), blobs))
  }

  /** The baseline as its row was given it, wherever the text is kept. */
  function GivenBaseline(rows: map<nat, Row>): Baseline {
    if DELTA_BASE_VERSION !in rows then NoBaseline
    else if rows[DELTA_BASE_VERSION].Full? then Broken
    else Retained(rows[DELTA_BASE_VERSION].number, rows[DELTA_BASE_VERSION].text)
  }

  /** The outcome when every row still stands for what it was given. */
  ghost function Ideal(e: Env, op: Op, at: Time, db: Db): Outcome {
    PlanWith(e, op, at, db, GivenBaseline(RowsOf(op, db)))
  }
}
