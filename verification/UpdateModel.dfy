/**
 * The tables of the update service: stacks, updates with their checkpoint, journal and outbox
 * rows, the blob store's keys, and the requests the service accepts.
 */
module UpdateModel {
  import opened Wrappers
  import JournalTypes
  import JournalStore
  import TextEdits

  type StackId = nat
  type Time = int
  type Token = nat
  type Hash = nat

  /** A deployment document. */
  type Doc = JournalTypes.Deployment

  /** A text as Unicode scalar values. */
  type Text = seq<nat>

  type Bytes = TextEdits.Bytes

  /** An update's row never changes its stack, so the stack is part of its identity. */
  datatype UpdateId = UpdateId(stack: StackId, serial: nat)

  datatype Kind = Update | Preview | Refresh | Destroy | Import

  datatype Status = NotStarted | Requested | Running | Succeeded | Failed | Cancelled

  predicate Terminal(s: Status) {
    s == Succeeded || s == Failed || s == Cancelled
  }

  /** Blob keys: a full checkpoint is named by its version, a delta baseline by its sequence number. */
  datatype Key = FullKey(update: UpdateId, version: nat) | BaseKey(update: UpdateId, number: nat)

  /**
   * A checkpoint row. `doc` and `text` are what the save was given. A row with a key holds no
   * content of its own: readers get it from the blob store.
   */
  datatype Row =
    | Full(doc: Doc, key: Option<Key>, createdAt: Time)
    | Base(number: nat, text: Text, key: Option<Key>)

  /** Outbox rows of one update. */
  datatype Event = Started | Ended(status: Status)

  datatype UpdateRow = UpdateRow(
    kind: Kind,
    status: Status,
    version: nat,
    token: Option<Token>,
    lease: Option<Time>,
    createdAt: Time,
    startedAt: Option<Time>,
    rows: map<nat, Row>,
    journal: JournalStore.Stored,
    events: seq<Event>)

  datatype Db = Db(active: map<StackId, Option<UpdateId>>, updates: map<UpdateId, UpdateRow>)

  /** The reserved version of the delta baseline row. */
  const DELTA_BASE_VERSION: nat := 0

  const BYTE_ORDER_MARK: nat := 0xFEFF

  /** The libraries the service calls, and its settings. Times are in seconds. */
  datatype Env = Env(
    encode: Text -> Bytes,
    decode: Bytes -> Option<Text>,
    serialize: Doc -> Text,
    parse: Text -> Option<Doc>,
    hash: Bytes -> Hash,
    blobThreshold: nat,
    leaseSeconds: nat,
    graceSeconds: nat,
    staleSeconds: nat)

  predicate NoMark(t: Text) {
    t == [] || t[0] != BYTE_ORDER_MARK
  }

  /** A decoder drops one leading byte order mark. */
  function Unmarked(t: Text): Text {
    if NoMark(t) then t else t[1..]
  }

  ghost predicate EncodingFacts(e: Env) {
    && (forall t: Text :: e.decode(e.encode(t)) == Some(Unmarked(t)))
    && (forall d: Doc :: NoMark(e.serialize(d)) && e.parse(e.serialize(d)) == Some(d))
    && (forall t: Text :: e.parse(t).Some? ==> NoMark(t))
  }

  /** Distinct texts have distinct encodings, and distinct byte strings distinct hashes. */
  ghost predicate HashFacts(e: Env) {
    && (forall a: Text, b: Text :: e.encode(a) == e.encode(b) ==> a == b)
    && (forall a: Bytes, b: Bytes :: e.hash(a) == e.hash(b) ==> a == b)
  }

  /** The length of a text in UTF-16 code units. */
  function CodeUnits(t: Text): nat {
    if t == [] then 0
    else CodeUnits(t[..|t| - 1]) + if t[|t| - 1] > 0xFFFF then 2 else 1
  }

  /**
   * A request together with what the service draws while it serves it: fresh ids and tokens, the
   * base document a journal flush starts from, the rows a sweep's statements select, and the time
   * a renewal or a sweep read before taking locks.
   */
  datatype Op =
    | AddStack(stack: StackId)
    | Create(stack: StackId, kind: Kind, id: UpdateId)
    | Start(update: UpdateId, newToken: Token)
    | Complete(update: UpdateId, status: Status)
    | Cancel(update: UpdateId)
    | Renew(update: UpdateId, seen: Token, duration: Option<int>, readAt: Time)
    | Patch(update: UpdateId, doc: Doc)
    | Verbatim(update: UpdateId, number: nat, text: Text)
    | Delta(update: UpdateId, number: nat, edits: seq<TextEdits.TextEdit>, expected: Hash)
    | Journal(update: UpdateId, batch: seq<JournalStore.Posted>, base: Doc)
    | ImportDoc(stack: StackId, doc: Doc, head: Option<RowId>, id: UpdateId)
    | Delete(stack: StackId, force: bool)
    | Sweep(stacks: set<StackId>, chosen: set<UpdateId>, readAt: Time)

  datatype RowId = RowId(update: UpdateId, version: nat)

  datatype Error =
    | UpdateNotFound
    | StackNotFound
    | UpdateConflict
    | ImportConflict
    | LeaseExpired
    | BadRequest
    | StaleSequence
    | ConflictingContent
    | OutOfOrder
    | BrokenBaseline
    | UnreadableBase
    | HasResources

  /**
   * What a transaction writes: update rows set, `active` columns set, a stack dropped with all
   * its rows, blobs to put before the commit and blobs to delete at some time after it.
   */
  datatype Change = Change(
    rows: map<UpdateId, UpdateRow>,
    active: map<StackId, Option<UpdateId>>,
    dropped: Option<StackId>,
    puts: map<Key, Bytes>,
    dooms: set<Key>)

  const NO_CHANGE := Change(map[], map[], None, map[], {})

  /** The tables once a change is committed. */
  function After(db: Db, c: Change): Db {
    if c.dropped.Some? then
      Db(db.active - {c.dropped.value}, map u | u in db.updates && u.stack != c.dropped.value :: db.updates[u])
    else
      Db(db.active + c.active, db.updates + c.rows)
  }

  lemma {:induction false} GreatestOf(s: set<nat>) returns (m: nat)
    requires s != {}
    ensures m in s && forall k :: k in s ==> k <= m
    decreases |s|
  {
    HasMember(s);
    var x :| x in s;
    if s == {x} { return x; }
    assert s - {x} != {};
    m := GreatestOf(s - {x});
    if x > m { m := x; }
    assert forall k :: k in s ==> k == x || k in s - {x};
  }

  lemma GreatestExists(s: set<nat>)
    requires s != {}
    ensures exists m :: m in s && forall k :: k in s ==> k <= m
  {
    var m := GreatestOf(s);
    assert m in s && forall k :: k in s ==> k <= m;
  }

  /** The SQL expression `COALESCE(MAX(column), 0)`. */
  function MaxOrZero(s: set<nat>): (m: nat)
    ensures forall k :: k in s ==> k <= m
    ensures m in s || (s == {} && m == 0)
  {
    if s == {} then 0
    else
      GreatestExists(s);
      var m :| m in s && forall k :: k in s ==> k <= m;
      m
  }
}
