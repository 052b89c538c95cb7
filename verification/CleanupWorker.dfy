/** The cleanup worker object: one cycle of claims, deletes, acknowledgements and retries. */
module CleanupWorker {
  import opened Wrappers
  import opened BlobCleanup

  /** What one cycle may do to a row: nothing, remove it with its blob, or put it off. */
  predicate RowAfter(
      key: Key, row: Row, queue: map<Key, Row>, storage: set<Key>, failing: set<Key>, worker: WorkerId, now: Time)
  {
    if key in queue then
      queue[key] == row
      || (key in failing && Claimable(row, now)
          && queue[key] == Retried(Claimed(row, worker, now), row.attempts + 1, now))
    else key !in failing && Claimable(row, now) && key !in storage
  }

  /** What a cycle has done after `index` claims. */
  ghost predicate Underway(
      before: map<Key, Row>, stored: set<Key>, queue: map<Key, Row>, storage: set<Key>, failing: set<Key>,
      worker: WorkerId, now: Time, deleted: nat, index: nat)
  {
    && queue.Keys <= before.Keys
    && (forall k <- before :: RowAfter(k, before[k], queue, storage, failing, worker, now))
    && storage == stored - (before.Keys - queue.Keys)
    && deleted == |before| - |queue|
    && deleted + |PutOffs(before, queue)| == index
  }

  class Worker {
    const workerId: WorkerId
    const maxPerRun: nat
    var running: bool
    var queue: map<Key, Row>
    var storage: set<Key>

    constructor (workerId: WorkerId, maxPerRun: nat, queue: map<Key, Row>, storage: set<Key>)
      ensures this.workerId == workerId && this.maxPerRun == maxPerRun && !running
      ensures this.queue == queue && this.storage == storage
    {
      this.workerId, this.maxPerRun, running, this.queue, this.storage := workerId, maxPerRun, false, queue, storage;
    }

    method ClaimNext(now: Time) returns (claim: Option<Key>)
      modifies `queue
      ensures claim.None? ==> queue == old(queue) && forall k <- queue :: !Claimable(queue[k], now)
      ensures claim.Some? ==>
        && claim.value in old(queue) && Claimable(old(queue)[claim.value], now)
        && queue == old(queue)[claim.value := Claimed(old(queue)[claim.value], workerId, now)]
    {
      if key :| key in queue && Claimable(queue[key], now) {
        queue := queue[key := Claimed(queue[key], workerId, now)];
        return Some(key);
      }
      return None;
    }

    method Acknowledge(key: Key) returns (removed: bool)
      modifies `queue
      ensures removed <==> key in old(queue) && old(queue)[key].claimedBy == Some(workerId)
      ensures queue == if removed then old(queue) - {key} else old(queue)
    {
      removed := key in queue && queue[key].claimedBy == Some(workerId);
      if removed { queue := queue - {key}; }
    }

    method PutOff(key: Key, attempts: nat, now: Time)
      modifies `queue
      ensures queue ==
        if key in old(queue) && old(queue)[key].claimedBy == Some(workerId)
        then old(queue)[key := Retried(old(queue)[key], attempts, now)] else old(queue)
    {
      if key in queue && queue[key].claimedBy == Some(workerId) {
        var delaySeconds := RetryDelay(attempts);
        queue := queue[key := queue[key].(claimedBy := None, claimedUntil := None, availableAt := now + delaySeconds)];
      }
    }

    /** Delete the blob of a claimed row and acknowledge it, or put the row off when the delete fails. */
    method Process(key: Key, failing: set<Key>, now: Time) returns (removed: bool)
      requires key in queue && queue[key].claimedBy == Some(workerId)
      modifies `queue, `storage
      ensures removed <==> key !in failing
      ensures removed ==> queue == old(queue) - {key} && storage == old(storage) - {key}
      ensures !removed ==>
        queue == old(queue)[key := Retried(old(queue)[key], old(queue)[key].attempts, now)] && storage == old(storage)
    {
      hide RetryDelay;
      if key in failing {
        PutOff(key, queue[key].attempts, now);
        return false;
      }
      storage := storage - {key};
      removed := Acknowledge(key);
    }

    /**
     * One cycle with nobody else at the queue; deletes of the keys in `failing` fail. Rows leave
     * with their blob, failed ones are put off, and the rest stay; a cycle that stops before its
     * limit leaves nothing to claim.
     */
    method RunCycle(failing: set<Key>, now: Time) returns (deleted: nat)
      modifies this
      ensures running == old(running)
      ensures old(running) ==> deleted == 0 && queue == old(queue) && storage == old(storage)
      ensures queue.Keys <= old(queue).Keys
      ensures forall k <- old(queue) :: RowAfter(k, old(queue)[k], queue, storage, failing, workerId, now)
      ensures storage == old(storage) - (old(queue).Keys - queue.Keys)
      ensures deleted == |old(queue)| - |queue| <= maxPerRun
      ensures !old(running) ==>
        deleted + |PutOffs(old(queue), queue)| == maxPerRun || forall k <- queue :: !Claimable(queue[k], now)
    {
      hide RetryDelay, PutOffs, Retried, Claimable;
      deleted := 0;
      if running {
        return;
      }
      running := true;
      ghost var before, stored := queue, storage;
      NothingPutOff(queue);
      var index := 0;
      while index < maxPerRun
        invariant index <= maxPerRun && running
        invariant Underway(before, stored, queue, storage, failing, workerId, now, deleted, index)
      {
        ghost var rows, blobs := queue, storage;
        var claim := ClaimNext(now);
        if claim.None? { break; }
        var removed := Process(claim.value, failing, now);
        OneProcessed(
          before, stored, rows, blobs, queue, storage, failing, workerId, now, deleted, index, claim.value);
        if removed { deleted := deleted + 1; }
        index := index + 1;
      }
      running := false;
    }
  }

  lemma PutOffDiffers(row: Row, worker: WorkerId, now: Time)
    requires Claimable(row, now)
    ensures Retried(Claimed(row, worker, now), row.attempts + 1, now) != row
  {
  }

  /** The rows still queued that a cycle has put off. */
  function PutOffs(before: map<Key, Row>, queue: map<Key, Row>): set<Key> {
    set k | k in queue && k in before && queue[k] != before[k]
  }

  lemma NothingPutOff(queue: map<Key, Row>)
    ensures PutOffs(queue, queue) == {}
  {
  }

  /** A row claimed within a cycle was not put off by it, since every delay is positive. */
  lemma FreshClaim(
      before: map<Key, Row>, rows: map<Key, Row>, storage: set<Key>, failing: set<Key>, worker: WorkerId, now: Time,
          key: Key)
    requires key in rows && Claimable(rows[key], now) && key in before
    requires RowAfter(key, before[key], rows, storage, failing, worker, now)
    ensures rows[key] == before[key]
  {
    RetryDelayIsBounded(before[key].attempts + 1);
  }

  /** One more row is processed: removed with its blob, or put off. */
  lemma OneProcessed(
      before: map<Key, Row>, stored: set<Key>, rows: map<Key, Row>, blobs: set<Key>, queue: map<Key, Row>,
      storage: set<Key>, failing: set<Key>, worker: WorkerId, now: Time, deleted: nat, index: nat, key: Key)
    requires Underway(before, stored, rows, blobs, failing, worker, now, deleted, index)
    requires key in rows && Claimable(rows[key], now)
    requires key in failing ==>
      queue == rows[key := Retried(Claimed(rows[key], worker, now), rows[key].attempts + 1, now)] && storage == blobs
    requires key !in failing ==> queue == rows - {key} && storage == blobs - {key}
    ensures Underway(before, stored, queue, storage, failing, worker, now,
                     if key in failing then deleted else deleted + 1, index + 1)
  {
    hide PutOffs, Retried, Claimed, Claimable;
    FreshClaim(before, rows, blobs, failing, worker, now, key);
    if key in failing {
      PutOffDiffers(before[key], worker, now);
      OnePutOff(before, rows, queue, key);
    } else {
      OneRemoved(before, rows, queue, key);
    }
  }

  lemma OnePutOff(before: map<Key, Row>, rows: map<Key, Row>, queue: map<Key, Row>, key: Key)
    requires key in rows && key in before && rows[key] == before[key]
    requires key in queue && queue == rows[key := queue[key]] && queue[key] != before[key]
    ensures |PutOffs(before, queue)| == |PutOffs(before, rows)| + 1 && |queue| == |rows|
  {
    assert PutOffs(before, queue) == PutOffs(before, rows) + {key};
    assert queue.Keys == rows.Keys;
    assert |queue| == |queue.Keys| && |rows| == |rows.Keys|;
  }

  lemma OneRemoved(before: map<Key, Row>, rows: map<Key, Row>, queue: map<Key, Row>, key: Key)
    requires key in rows && key in before && rows[key] == before[key] && queue == rows - {key}
    ensures PutOffs(before, queue) == PutOffs(before, rows) && |queue| == |rows| - 1
  {
    assert queue.Keys == rows.Keys - {key};
    assert |queue| == |queue.Keys| && |rows| == |rows.Keys|;
  }
}
