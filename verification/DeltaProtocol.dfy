/**
 * Delta checkpoints: the retained baseline is the client's text for its sequence number, whatever
 * requests were lost, repeated or reordered.
 */
module DeltaProtocol {
  import opened Wrappers
  import opened UpdateModel
  import opened UpdatePlans
  import opened Lifecycle
  import opened Transactions
  import opened BlobSafety
  import opened Runs
  import opened RunTheorems
  import JournalStore
  import TextEdits

  /** The text the client has for each sequence number of each update. */
  type Client = (UpdateId, nat) -> Text

  /** A save sends the client's text, a delta the hash of the client's text and any edits. */
  predicate FromClient(e: Env, client: Client, op: Op) {
    && (op.Verbatim? ==> op.text == client(op.update, op.number))
    && (op.Delta? ==> op.expected == e.hash(e.encode(client(op.update, op.number))))
  }

  predicate BaseAgrees(client: Client, u: UpdateId, row: UpdateRow) {
    DELTA_BASE_VERSION in row.rows && row.rows[DELTA_BASE_VERSION].Base? ==>
      row.rows[DELTA_BASE_VERSION].text == Unmarked(client(u, row.rows[DELTA_BASE_VERSION].number))
  }

  ghost predicate Agrees(client: Client, db: Db) {
    forall u <- db.updates :: BaseAgrees(client, u, db.updates[u])
  }

  /** A delta with the right hash produces the client's text, without a leading byte order mark. */
  lemma EditedIsClientText(e: Env, base: Text, edits: seq<TextEdits.TextEdit>, clientText: Text)
    requires EncodingFacts(e) && HashFacts(e)
    requires Edited(e, base, edits, e.hash(e.encode(clientText))).Some?
    ensures Edited(e, base, edits, e.hash(e.encode(clientText))).value == Unmarked(clientText)
  {
    hide TextEdits.Outcome;
    var bytes := TextEdits.Outcome(e.encode(base), edits).value;
    assert e.hash(bytes) == e.hash(e.encode(clientText));
    assert e.decode(e.encode(clientText)) == Some(Unmarked(clientText));
  }

  lemma SaveAgrees(e: Env, client: Client, op: Op, row: UpdateRow, at: Time, base: Baseline)
    requires EncodingFacts(e) && HashFacts(e) && FromClient(e, client, op) && (op.Verbatim? || op.Delta?)
    requires PlanRow(e, op, row, at, base).Success?
    ensures op.update in PlanRow(e, op, row, at, base).value.rows ==>
              BaseAgrees(client, op.update, PlanRow(e, op, row, at, base).value.rows[op.update])
  {
    hide Edited, NextVersion, CodeUnits;
    var c := PlanRow(e, op, row, at, base).value;
    if c != NO_CHANGE && op.Delta? {
      EditedIsClientText(e, base.text, op.edits, client(op.update, op.number));
    }
  }

  /** Other requests keep the baseline row, or drop it. */
  predicate BaseKept(row: UpdateRow, row': UpdateRow) {
    DELTA_BASE_VERSION in row'.rows ==>
      DELTA_BASE_VERSION in row.rows && row'.rows[DELTA_BASE_VERSION] == row.rows[DELTA_BASE_VERSION]
  }

  lemma OthersKeepBase(e: Env, op: Op, row: UpdateRow, at: Time, base: Baseline)
    requires (OnRow(op) || OnRowAndStack(op)) && !op.Verbatim? && !op.Delta?
    requires PlanRow(e, op, row, at, base).Success?
    ensures op.update in PlanRow(e, op, row, at, base).value.rows ==>
              BaseKept(row, PlanRow(e, op, row, at, base).value.rows[op.update])
  {
    hide JournalStore.InsertRows, JournalStore.Flushed, CodeUnits;
  }

  lemma RequestAgrees(e: Env, client: Client, op: Op, at: Time, db: Db)
    requires EncodingFacts(e) && HashFacts(e) && Agrees(client, db) && FromClient(e, client, op)
    requires FreshId(db, op) && Ideal(e, op, at, db).Success?
    ensures Agrees(client, After(db, Ideal(e, op, at, db).value))
  {
    hide Ideal, EncodingFacts, HashFacts, FromClient, After;
    if OnRow(op) || OnRowAndStack(op) {
      if op.update in db.updates {
        RowRequestAgrees(e, client, op, at, db);
      } else {
        MissingChangesNothing(e, op, at, db);
      }
    } else {
      forall u <- After(db, Ideal(e, op, at, db).value).updates
        ensures BaseAgrees(client, u, After(db, Ideal(e, op, at, db).value).updates[u])
      {
        WholeRequestKeepsContents(e, op, at, db, u);
        if u in db.updates { assert BaseAgrees(client, u, db.updates[u]); }
      }
    }
  }

  lemma RowRequestAgrees(e: Env, client: Client, op: Op, at: Time, db: Db)
    requires EncodingFacts(e) && HashFacts(e) && Agrees(client, db) && FromClient(e, client, op)
    requires (OnRow(op) || OnRowAndStack(op)) && op.update in db.updates && Ideal(e, op, at, db).Success?
    ensures Agrees(client, After(db, Ideal(e, op, at, db).value))
  {
    hide PlanRow, EncodingFacts, HashFacts, FromClient;
    var row := db.updates[op.update];
    var base := GivenBaseline(row.rows);
    var c := Ideal(e, op, at, db).value;
    OnlyOwnRow(e, op, row, at, base);
    assert BaseAgrees(client, op.update, row);
    if op.Verbatim? || op.Delta? {
      SaveAgrees(e, client, op, row, at, base);
    } else {
      OthersKeepBase(e, op, row, at, base);
    }
  }

  lemma OnlyOwnRow(e: Env, op: Op, row: UpdateRow, at: Time, base: Baseline)
    requires (OnRow(op) || OnRowAndStack(op)) && PlanRow(e, op, row, at, base).Success?
    ensures PlanRow(e, op, row, at, base).value.rows.Keys <= {op.update}
    ensures PlanRow(e, op, row, at, base).value.dropped.None?
  {
    hide JournalStore.InsertRows, JournalStore.Flushed, CodeUnits, NextVersion, Edited;
  }

  // --------------------------------------------------------------------- over runs

  /** Every request of the run comes from the client. */
  ghost predicate AllFromClient(e: Env, client: Client, steps: seq<Step>) {
    forall step <- steps :: step.Begin? ==> FromClient(e, client, step.op)
  }

  lemma {:induction false} OpsFromClient(
      e: Env, client: Client, states: seq<State>, steps: seq<Step>, i: nat, t: TxId)
    requires IsRun(e, states, steps) && AllFromClient(e, client, steps) && i < |states| && t in states[i].txs
    ensures FromClient(e, client, states[i].txs[t].op)
  {
    hide FromClient, Plan, Ready, BaseIsGiven, MayRequest, After;
    if i > 0 {
      assert states[i - 1 + 1] == Next(e, states[i - 1], steps[i - 1]);
      assert steps[i - 1] in steps;
      if t in states[i - 1].txs { OpsFromClient(e, client, states, steps, i - 1, t); }
    }
  }

  lemma {:induction false} BaselinesAgree(e: Env, client: Client, states: seq<State>, steps: seq<Step>, i: nat)
    requires EncodingFacts(e) && HashFacts(e)
    requires IsRun(e, states, steps) && AllFromClient(e, client, steps) && i < |states|
    ensures Agrees(client, states[i].db)
  {
    hide EncodingFacts, HashFacts, Enabled, Next, PlanWith, DbOk, AllFromClient, FromClient, BaseAgrees, After, Ready;
    if i > 0 {
      BaselinesAgree(e, client, states, steps, i - 1);
      TablesChangeByCommits(e, states, steps, i - 1);
      if steps[i - 1].Commit? {
        var s := states[i - 1];
        var tx := s.txs[steps[i - 1].id];
        OpsFromClient(e, client, states, steps, i - 1, steps[i - 1].id);
        RequestAgrees(e, client, tx.op, tx.prepared.value.at, s.db);
      }
    }
  }

  /**
   * Delta protocol agreement, and exactly when it holds: over every run, whatever is lost,
   * repeated, reordered, aborted or deleted late, the baseline the service reads back for number n
   * is the client's text n without a leading byte order mark; so it is the client's text n if and
   * only if that text does not begin with one.
   */
  lemma ServerTextIsClientText(
      e: Env, client: Client, states: seq<State>, steps: seq<Step>, i: nat, u: UpdateId)
    requires EncodingFacts(e) && HashFacts(e)
    requires IsRun(e, states, steps) && AllFromClient(e, client, steps) && i < |states|
    requires u in states[i].db.updates && DELTA_BASE_VERSION in states[i].db.updates[u].rows
    ensures var read := ReadBaseline(e, states[i].db.updates[u].rows, states[i].blobs);
            && read.Retained?
            && read.text == Unmarked(client(u, read.number))
            && (read.text == client(u, read.number) <==> NoMark(client(u, read.number)))
  {
    hide EncodingFacts, HashFacts, IsRun, AllFromClient, ReadBaseline, Backed, LocksOk, PreparedOk, PutsOk, Serial;
    BaselinesAgree(e, client, states, steps, i);
    At(e, states, steps, i);
    var s := states[i];
    assert BaseAgrees(client, u, s.db.updates[u]) && RowOk(u, s.db.updates[u]);
    RowsReadBack(e, states, steps, i, u, DELTA_BASE_VERSION);
  }

  // --------------------------------------------------------------------- sequence numbers

  /** What an accepted save does to the baseline: nothing, the first number, or the next number. */
  predicate BaseMoves(u: UpdateId, row: UpdateRow, number: nat, c: Change) {
    if DELTA_BASE_VERSION in row.rows && row.rows[DELTA_BASE_VERSION].Base?
       && row.rows[DELTA_BASE_VERSION].number == number then c == NO_CHANGE
    else
      && u in c.rows && DELTA_BASE_VERSION in c.rows[u].rows
      && c.rows[u].rows[DELTA_BASE_VERSION].Base? && c.rows[u].rows[DELTA_BASE_VERSION].number == number
      && (DELTA_BASE_VERSION in row.rows ==>
            row.rows[DELTA_BASE_VERSION].Base? && number == row.rows[DELTA_BASE_VERSION].number + 1)
  }

  /** Accepted numbers increase by exactly one after the first, and an equal number changes nothing. */
  lemma SavesAdvanceByOne(e: Env, op: Op, row: UpdateRow, at: Time)
    requires op.Verbatim? || op.Delta?
    requires PlanRow(e, op, row, at, GivenBaseline(row.rows)).Success?
    ensures BaseMoves(op.update, row, op.number, PlanRow(e, op, row, at, GivenBaseline(row.rows)).value)
  {
    hide Edited, NextVersion, CodeUnits;
  }

  /** The numbers a save is accepted with: any first one, the next one, or the stored one with the stored text. */
  predicate InSequence(base: Baseline, number: nat, sameText: bool) {
    match base
    case NoBaseline => true
    case Broken => false
    case Retained(stored, _) => number == stored + 1 || (number == stored && sameText)
  }

  /** A verbatim save is accepted exactly when it parses, the lease has not expired and the number is in sequence. */
  lemma VerbatimIsAccepted(e: Env, op: Op, row: UpdateRow, at: Time, base: Baseline)
    requires op.Verbatim?
    ensures PlanRow(e, op, row, at, base).Success? <==>
            && e.parse(op.text).Some?
            && row.status == Running && row.token.Some? && (row.lease.Some? ==> row.lease.value >= at)
            && InSequence(base, op.number, base.Retained? && base.text == op.text)
  {
    hide NextVersion, CodeUnits;
  }

  /** A delta further needs a baseline, and a new number needs edits that give a parsable text of the hash sent. */
  lemma DeltaIsAccepted(e: Env, op: Op, row: UpdateRow, at: Time, base: Baseline)
    requires op.Delta?
    ensures PlanRow(e, op, row, at, base).Success? <==>
            && row.status == Running && row.token.Some? && (row.lease.Some? ==> row.lease.value >= at)
            && base.Retained?
            && InSequence(base, op.number, e.hash(e.encode(base.text)) == op.expected)
            && (op.number == base.number + 1 ==>
                  && Edited(e, base.text, op.edits, op.expected).Some?
                  && e.parse(Edited(e, base.text, op.edits, op.expected).value).Some?)
  {
    hide NextVersion, CodeUnits, Edited;
  }

  /**
   * Repeating the stored number is answered as a replay exactly when it carries the stored text;
   * for a delta from the client, exactly when the client's text has no leading byte order mark.
   */
  lemma RetriesAreReplays(e: Env, client: Client, op: Op, row: UpdateRow, at: Time)
    requires EncodingFacts(e) && HashFacts(e) && FromClient(e, client, op) && (op.Verbatim? || op.Delta?)
    requires BaseAgrees(client, op.update, row) && GivenBaseline(row.rows).Retained?
    requires GivenBaseline(row.rows).number == op.number && Leased(row, at)
    ensures PlanRow(e, op, row, at, GivenBaseline(row.rows)) == Success(NO_CHANGE) <==>
            if op.Verbatim? then e.parse(op.text).Some? else NoMark(client(op.update, op.number))
  {
    hide NextVersion, CodeUnits, Edited;
    var text := client(op.update, op.number);
    if op.Delta? && !NoMark(text) {
      assert Unmarked(text) != text;
      assert e.encode(Unmarked(text)) != e.encode(text);
    }
  }

  // --------------------------------------------------------------------- the marked text

  /** One edit that replaces everything. */
  function ReplaceAll(e: Env, base: Text, text: Text): seq<TextEdits.TextEdit> {
    [TextEdits.TextEdit(0, |e.encode(base)|, e.encode(text))]
  }

  lemma ReplacingAll(e: Env, base: Text, text: Text)
    ensures TextEdits.Outcome(e.encode(base), ReplaceAll(e, base, text)) == Success(e.encode(text))
  {
    var before := e.encode(base);
    var edit := TextEdits.TextEdit(0, |before|, e.encode(text));
    var edits := [edit];
    assert edits[..0] == [];
    assert TextEdits.StableSort([]) == [];
    assert TextEdits.StableSort(edits) == TextEdits.Insert([], edit) == [edit];
    ReplacedSplice(before, edit);
  }

  lemma ReplacedSplice(before: Bytes, edit: TextEdits.TextEdit)
    requires edit.start == 0 && edit.end == |before|
    ensures TextEdits.FirstError(|before|, [edit]) == None
    ensures TextEdits.InOrder(|before|, [edit])
    ensures TextEdits.SpliceRightToLeft(before, [edit]) == edit.newText
  {
    assert [edit][..0] == [];
  }

  /**
   * The agreement does fail for a marked text: for any document text, the delta whose result is
   * that text behind a byte order mark is accepted, and the baseline retained lacks the mark.
   */
  lemma MarkedTextIsRetainedBare(e: Env, u: UpdateId, row: UpdateRow, number: nat, base: Text, text: Text, at: Time)
    requires EncodingFacts(e) && Leased(row, at) && e.parse(text).Some?
    ensures var marked := [BYTE_ORDER_MARK] + text;
            var op := Delta(u, number + 1, ReplaceAll(e, base, marked), e.hash(e.encode(marked)));
            var outcome := PlanRow(e, op, row, at, Retained(number, base));
            && outcome.Success?
            && outcome.value.rows[u].rows[DELTA_BASE_VERSION].text == text != marked
  {
    hide TextEdits.Outcome, NextVersion, CodeUnits;
    var marked := [BYTE_ORDER_MARK] + text;
    ReplacingAll(e, base, marked);
    assert e.decode(e.encode(marked)) == Some(Unmarked(marked));
    assert Unmarked(marked) == text;
  }
}
