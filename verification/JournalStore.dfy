/**
 * The stored journal of one update: batches are inserted with conflicts ignored, and a flush
 * replays what is stored in sequence order.
 */
module JournalStore {
  import opened Wrappers
  import opened JournalTypes
  import opened JournalReplay

  datatype Posted = Posted(sequenceId: int, entry: Entry)

  type Stored = map<int, Entry>

  /** Insert rows in order; a sequence number that is taken keeps its row. */
  function InsertRows(stored: Stored, batch: seq<Posted>): Stored {
    if batch == [] then stored
    else
      var before, row := InsertRows(stored, batch[..|batch| - 1]), batch[|batch| - 1];
      if row.sequenceId in before then before else before[row.sequenceId := row.entry]
  }

  lemma {:induction false} LeastOf(s: set<int>) returns (m: int)
    requires s != {}
    ensures m in s && forall k :: k in s ==> m <= k
    decreases |s|
  {
    HasMember(s);
    var x :| x in s;
    if s == {x} { return x; }
    assert s - {x} != {};
    m := LeastOf(s - {x});
    if x < m { m := x; }
    assert forall k :: k in s ==> k == x || k in s - {x};
  }

  lemma LeastExists(s: set<int>)
    requires s != {}
    ensures exists m :: m in s && forall k :: k in s ==> m <= k
  {
    var m := LeastOf(s);
    assert m in s && forall k :: k in s ==> m <= k;
  }

  /** The least of a non-empty set of numbers. */
  function Least(s: set<int>): (m: int)
    requires s != {}
    ensures m in s && forall k :: k in s ==> m <= k
  {
    LeastExists(s);
    var m :| m in s && forall k :: k in s ==> m <= k;
    m
  }

  /** The members of a set in ascending order. */
  function Ascending(s: set<int>): (r: seq<int>)
    decreases |s|
  {
    if s == {} then []
    else
      var m := Least(s);
      [m] + Ascending(s - {m})
  }

  lemma {:induction false} AscendingMembers(s: set<int>, k: int)
    ensures k in Ascending(s) <==> k in s
    decreases |s|
  {
    if s != {} {
      var m := Least(s);
      AscendingMembers(s - {m}, k);
      assert k in Ascending(s) <==> k == m || k in Ascending(s - {m});
    }
  }

  ghost predicate Increasing(r: seq<int>) {
    forall i, j :: 0 <= i < j < |r| ==> r[i] < r[j]
  }

  lemma IncreasingCons(m: int, rest: seq<int>)
    requires Increasing(rest) && forall k <- rest :: m < k
    ensures Increasing([m] + rest)
  {
    var r := [m] + rest;
    forall i, j | 0 <= i < j < |r| ensures r[i] < r[j] {
      assert rest[j - 1] in rest;
      if i > 0 { assert rest[i - 1] < rest[j - 1]; }
    }
  }

  lemma AscendingAbove(s: set<int>, m: int)
    requires forall k :: k in s ==> m < k
    ensures forall k <- Ascending(s) :: m < k
  {
    forall k | k in Ascending(s) ensures m < k { AscendingMembers(s, k); }
  }

  /** Ascending sorts: strictly increasing, and (AscendingMembers) exactly the members of the set. */
  lemma {:induction false} AscendingSorts(s: set<int>)
    ensures Increasing(Ascending(s))
    decreases |s|
  {
    if s != {} {
      var m := Least(s);
      AscendingSorts(s - {m});
      AscendingAbove(s - {m}, m);
      IncreasingCons(m, Ascending(s - {m}));
    }
  }

  /** The stored entries in sequence order. */
  function InOrder(stored: Stored): (r: seq<Entry>)
  {
    var keys := Ascending(stored.Keys);
    assert forall i :: 0 <= i < |keys| ==> keys[i] in keys && keys[i] in stored by {
      forall i | 0 <= i < |keys| ensures keys[i] in stored { AscendingMembers(stored.Keys, keys[i]); }
    }
    seq(|keys|, i requires 0 <= i < |keys| => stored[keys[i]])
  }

  /** A batch is written through to a checkpoint unless every entry elides the write. */
  predicate HasNonElided(batch: seq<Posted>) {
    exists row <- batch :: !row.entry.elideWrite
  }

  /** All batches of a run, in the order they were committed. */
  function InsertAll(batches: seq<seq<Posted>>): Stored {
    if batches == [] then map[] else InsertRows(InsertAll(batches[..|batches| - 1]), batches[|batches| - 1])
  }

  /** The client gives every sequence number one entry. */
  ghost predicate FromClient(client: int -> Entry, batch: seq<Posted>) {
    forall row <- batch :: row.entry == client(row.sequenceId)
  }

  function Numbers(batch: seq<Posted>): set<int> {
    set row <- batch :: row.sequenceId
  }

  function Sent(batches: seq<seq<Posted>>): set<int> {
    if batches == [] then {} else Sent(batches[..|batches| - 1]) + Numbers(batches[|batches| - 1])
  }

  /** The entries the client gave for some numbers. */
  function Given(client: int -> Entry, numbers: set<int>): Stored {
    map k <- numbers :: client(k)
  }

  lemma {:induction false} InsertsGiven(client: int -> Entry, numbers: set<int>, batch: seq<Posted>)
    requires FromClient(client, batch)
    ensures InsertRows(Given(client, numbers), batch) == Given(client, numbers + Numbers(batch))
  {
    if batch == [] {
      assert numbers + Numbers(batch) == numbers;
    } else {
      var init, row := batch[..|batch| - 1], batch[|batch| - 1];
      assert batch == init + [row];
      InsertsGiven(client, numbers, init);
      assert Numbers(batch) == Numbers(init) + {row.sequenceId};
      assert row in batch;
      assert numbers + Numbers(batch) == numbers + Numbers(init) + {row.sequenceId};
    }
  }

  /** What is stored after any run of batches is what the client gave for the numbers sent. */
  lemma {:induction false} StoredIsSent(client: int -> Entry, batches: seq<seq<Posted>>)
    requires forall b <- batches :: FromClient(client, b)
    ensures InsertAll(batches) == Given(client, Sent(batches))
  {
    if batches != [] {
      var init, last := batches[..|batches| - 1], batches[|batches| - 1];
      assert last in batches;
      StoredIsSent(client, init);
      InsertsGiven(client, Sent(init), last);
    }
  }

  /** The checkpoint text a flush writes. */
  function Flushed(base: Deployment, stored: Stored): Deployment {
    Replayed(base, InOrder(stored))
  }

  /**
   * However the client's entries were batched, repeated and ordered, two runs that sent the same
   * numbers flush the same checkpoint: the replay in sequence order of the entries sent.
   */
  lemma {:induction false} FlushRefinesReplay(
      client: int -> Entry, base: Deployment, xs: seq<seq<Posted>>, ys: seq<seq<Posted>>)
    requires forall b <- xs :: FromClient(client, b)
    requires forall b <- ys :: FromClient(client, b)
    requires Sent(xs) == Sent(ys)
    ensures Flushed(base, InsertAll(xs)) == Flushed(base, InsertAll(ys))
         == Replayed(base, InOrder(Given(client, Sent(xs))))
  {
    StoredIsSent(client, xs);
    StoredIsSent(client, ys);
  }

  /** Sending a batch again stores nothing new. */
  lemma {:induction false} ResendIsIdle(stored: Stored, batch: seq<Posted>)
    requires Numbers(batch) <= stored.Keys
    ensures InsertRows(stored, batch) == stored
  {
    if batch != [] {
      var init, row := batch[..|batch| - 1], batch[|batch| - 1];
      assert batch == init + [row];
      assert row in batch;
      assert row.sequenceId in Numbers(batch);
      assert Numbers(init) <= Numbers(batch);
      ResendIsIdle(stored, init);
    }
  }

  /** A committed batch is stored, whatever was stored before it. */
  lemma {:induction false} InsertStores(stored: Stored, batch: seq<Posted>)
    ensures InsertRows(stored, batch).Keys == stored.Keys + Numbers(batch)
    ensures forall k :: k in stored ==> InsertRows(stored, batch)[k] == stored[k]
  {
    if batch != [] {
      var init, row := batch[..|batch| - 1], batch[|batch| - 1];
      assert batch == init + [row];
      InsertStores(stored, init);
      assert Numbers(batch) == Numbers(init) + {row.sequenceId};
    }
  }
}
