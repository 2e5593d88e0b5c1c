/** The queue table: claiming, completing, retrying, deferring, reaping and dead-lettering its rows. */
module Queue {
  import opened Wrappers

  datatype Status = Pending | Processing | Done | Failed

  datatype Row = Row(
    jobType: string, priority: int, createdAt: real, status: Status, attempts: int, maxAttempts: int,
    lockedAt: Option<real>, nextAttemptAt: Option<real>, completedAt: Option<real>)

  type Rows = map<int, Row>

  /** What a worker holds of a row it claimed; the attempt count is the one just claimed. */
  datatype ClaimedJob = ClaimedJob(id: int, jobType: string, attempts: int, maxAttempts: int) {
    predicate Exhausted() {
      attempts >= maxAttempts
    }
  }

  datatype Settings = Settings(retryBackoff: real, retryBackoffMax: real, reaperTimeout: real)

  function PowerOfTwo(n: nat): real {
    if n == 0 then 1.0 else 2.0 * PowerOfTwo(n - 1)
  }

  /** Exponential backoff, capped. */
  function RetryDelay(settings: Settings, attempts: int): real {
    var delay := settings.retryBackoff * PowerOfTwo(if attempts >= 1 then attempts - 1 else 0);
    if delay < settings.retryBackoffMax then delay else settings.retryBackoffMax
  }

  /** The first delay is the base, and each delay is twice the one before, up to the cap. */
  lemma BackoffDoublesUntilCapped(settings: Settings, attempts: int)
    requires settings.retryBackoff >= 0.0 && settings.retryBackoffMax >= 0.0
    ensures attempts <= 1 ==>
      RetryDelay(settings, attempts) ==
      if settings.retryBackoff < settings.retryBackoffMax then settings.retryBackoff else settings.retryBackoffMax
    ensures attempts >= 1 ==>
      var twice := 2.0 * RetryDelay(settings, attempts);
      RetryDelay(settings, attempts + 1) == if twice < settings.retryBackoffMax then twice else settings.retryBackoffMax
  {
    if attempts >= 1 {
      var power := PowerOfTwo(attempts - 1);
      assert settings.retryBackoff * (2.0 * power) == 2.0 * (settings.retryBackoff * power);
    }
  }

  /** The delay after an attempt, written out. */
  lemma DelayInFull(settings: Settings, attempts: int)
    requires attempts >= 1
    ensures var delay := settings.retryBackoff * PowerOfTwo(attempts - 1);
            RetryDelay(settings, attempts) ==
            if delay < settings.retryBackoffMax then delay else settings.retryBackoffMax
  {
    var doublings := if attempts >= 1 then attempts - 1 else 0;
    assert doublings == attempts - 1;
    var power, delay := PowerOfTwo(doublings), settings.retryBackoff * PowerOfTwo(doublings);
    assert delay == settings.retryBackoff * power == settings.retryBackoff * PowerOfTwo(attempts - 1);
  }

  // ---------------------------------------------------------------------------------------------
  // One row at a time
  // ---------------------------------------------------------------------------------------------

  predicate Claimable(row: Row, now: real) {
    && row.status.Pending? && row.attempts < row.maxAttempts
    && (row.nextAttemptAt.Some? ==> row.nextAttemptAt.value <= now)
  }

  function Claimed(row: Row, now: real): Row {
    row.(status := Processing, lockedAt := Some(now), attempts := row.attempts + 1)
  }

  function Completed(row: Row, now: real): Row {
    row.(status := Done, completedAt := Some(now), lockedAt := None)
  }

  /** The decision uses the count the worker holds, not the one in the table. */
  function Retried(settings: Settings, row: Row, job: ClaimedJob, now: real): Row {
    if job.Exhausted() then row.(status := Failed, completedAt := Some(now), lockedAt := None)
    else row.(status := Pending, lockedAt := None, nextAttemptAt := Some(now + RetryDelay(settings, job.attempts)))
  }

  function Deferred(row: Row, seconds: real, now: real): Row {
    row.(status := Pending, lockedAt := None, attempts := row.attempts - 1, nextAttemptAt := Some(now + seconds))
  }

  predicate Stuck(settings: Settings, row: Row, now: real) {
    row.status.Processing? && row.lockedAt.Some? && row.lockedAt.value < now - settings.reaperTimeout
  }

  function Reaped(settings: Settings, row: Row, now: real): Row {
    if Stuck(settings, row, now) then row.(status := Pending, lockedAt := None, nextAttemptAt := None) else row
  }

  /** The columns that say what the row is, and how often it has been attempted. */
  predicate SameWork(before: Row, after: Row) {
    && after.jobType == before.jobType && after.priority == before.priority && after.createdAt == before.createdAt
    && after.attempts == before.attempts && after.maxAttempts == before.maxAttempts
  }

  predicate Spent(row: Row) {
    row.status.Pending? && row.attempts >= row.maxAttempts
  }

  function Swept(row: Row, now: real): Row {
    if Spent(row) then row.(status := Failed, lockedAt := None, completedAt := Some(now)) else row
  }

  // ---------------------------------------------------------------------------------------------
  // Claim order
  // ---------------------------------------------------------------------------------------------

  /** Priority, then age. */
  predicate Earlier(a: Row, b: Row) {
    a.priority < b.priority || (a.priority == b.priority && a.createdAt < b.createdAt)
  }

  /** Rows of equal priority and age are taken in id order. */
  predicate ClaimedBefore(rows: Rows, i: int, j: int)
    requires i in rows && j in rows
  {
    Earlier(rows[i], rows[j]) || (!Earlier(rows[j], rows[i]) && i < j)
  }

  predicate IsNext(rows: Rows, candidates: set<int>, i: int)
    requires candidates <= rows.Keys
  {
    i in candidates && forall j :: j in candidates && j != i ==> ClaimedBefore(rows, i, j)
  }

  lemma {:induction false} NextExists(rows: Rows, candidates: set<int>)
    requires candidates <= rows.Keys && candidates != {}
    ensures exists i :: IsNext(rows, candidates, i)
    decreases |candidates|
  {
    var i := Pick(candidates);
    var others := candidates - {i};
    if others == {} {
      assert forall j :: j in candidates ==> j == i || j in others;
      assert IsNext(rows, candidates, i);
    } else {
      NextExists(rows, others);
      var k :| IsNext(rows, others, k);
      var next := if ClaimedBefore(rows, i, k) then i else k;
      forall j | j in candidates && j != next
        ensures ClaimedBefore(rows, next, j)
      {
        assert j == i || j in others;
      }
      assert IsNext(rows, candidates, next);
    }
  }

  function NextOf(rows: Rows, candidates: set<int>): (i: int)
    requires candidates <= rows.Keys && candidates != {}
    ensures IsNext(rows, candidates, i)
  {
    NextExists(rows, candidates);
    var i :| IsNext(rows, candidates, i);
    i
  }

  /** The first rows of the candidates in claim order, at most `limit` of them. */
  function Batch(rows: Rows, candidates: set<int>, limit: nat): seq<int>
    requires candidates <= rows.Keys
    decreases limit
  {
    if limit == 0 || candidates == {} then []
    else
      var i := NextOf(rows, candidates);
      [i] + Batch(rows, candidates - {i}, limit - 1)
  }

  /** A batch is as large as it may be, takes nothing twice, and leaves no candidate behind that
      precedes a claimed one: a waiting live delivery is never passed over for backfill. */
  lemma {:induction false} BatchTakesTheFirst(rows: Rows, candidates: set<int>, limit: nat)
    requires candidates <= rows.Keys
    ensures var batch := Batch(rows, candidates, limit);
            && |batch| == (if |candidates| < limit then |candidates| else limit)
            && (forall i :: i in batch ==> i in candidates)
            && (forall p, q :: 0 <= p < q < |batch| ==> batch[p] != batch[q])
            && (forall i, j :: i in batch && j in candidates && j !in batch ==> !Earlier(rows[j], rows[i]))
    decreases limit
  {
    if limit > 0 && candidates != {} {
      var i := NextOf(rows, candidates);
      var rest := Batch(rows, candidates - {i}, limit - 1);
      BatchTakesTheFirst(rows, candidates - {i}, limit - 1);
      assert forall q :: 0 <= q < |rest| ==> rest[q] in rest;
    }
  }

  function Candidates(rows: Rows, locked: set<int>, now: real): set<int> {
    set id | id in rows && id !in locked && Claimable(rows[id], now)
  }

  function ClaimedRows(rows: Rows, ids: seq<int>, now: real): Rows {
    map id | id in rows :: if id in ids then Claimed(rows[id], now) else rows[id]
  }

  function SweptRows(settings: Settings, rows: Rows, now: real): Rows {
    map id | id in rows :: Swept(Reaped(settings, rows[id], now), now)
  }

  /** A row that waits to be claimed. */
  ghost predicate Waits(rows: Rows, locked: set<int>, now: real, id: int) {
    && id in rows && id !in locked && rows[id].status == Pending && rows[id].attempts < rows[id].maxAttempts
    && (rows[id].nextAttemptAt == None || rows[id].nextAttemptAt.value <= now)
  }

  ghost predicate IsTaken(jobs: seq<ClaimedJob>, id: int) {
    exists i :: 0 <= i < |jobs| && jobs[i].id == id
  }

  /** Only waiting rows are taken, each once; if fewer than asked for, all that wait; and none is passed over
      for one of lower priority, or of the same priority and younger. */
  ghost predicate TakesWhatWaits(rows: Rows, locked: set<int>, now: real, limit: nat, jobs: seq<ClaimedJob>) {
    && |jobs| <= limit
    && (forall i :: 0 <= i < |jobs| ==> Waits(rows, locked, now, jobs[i].id))
    && (forall i, j :: 0 <= i < j < |jobs| ==> jobs[i].id != jobs[j].id)
    && (|jobs| < limit ==> forall id :: Waits(rows, locked, now, id) ==> IsTaken(jobs, id))
    && forall i, id :: 0 <= i < |jobs| && Waits(rows, locked, now, id) && !IsTaken(jobs, id) ==>
         var taken, left := rows[jobs[i].id], rows[id];
         taken.priority < left.priority || (taken.priority == left.priority && taken.createdAt <= left.createdAt)
  }

  /** The taken rows are processing under a lock of now with one attempt more, which is the one the worker
      holds; no other row or column moved. */
  ghost predicate Holds(before: Rows, after: Rows, now: real, jobs: seq<ClaimedJob>) {
    && after.Keys == before.Keys
    && (forall id :: id in before && !IsTaken(jobs, id) ==> after[id] == before[id])
    && forall i :: 0 <= i < |jobs| ==>
         var id := jobs[i].id;
         && id in before && after[id].status == Processing && after[id].lockedAt == Some(now)
         && after[id].attempts == before[id].attempts + 1 && jobs[i].attempts == before[id].attempts + 1
         && jobs[i].maxAttempts == before[id].maxAttempts && jobs[i].jobType == before[id].jobType
         && SameWork(before[id], after[id].(attempts := before[id].attempts))
         && after[id].nextAttemptAt == before[id].nextAttemptAt && after[id].completedAt == before[id].completedAt
  }

  lemma CandidatesWait(rows: Rows, locked: set<int>, now: real, id: int)
    ensures id in Candidates(rows, locked, now) <==> Waits(rows, locked, now, id)
  {
  }

  lemma BatchTakes(rows: Rows, locked: set<int>, now: real, limit: nat, jobs: seq<ClaimedJob>)
    requires var batch := Batch(rows, Candidates(rows, locked, now), limit);
             |jobs| == |batch| && forall i :: 0 <= i < |jobs| ==> jobs[i].id == batch[i]
    ensures TakesWhatWaits(rows, locked, now, limit, jobs)
  {
    hide Batch, Candidates, Waits;
    var candidates := Candidates(rows, locked, now);
    CandidatesAreRows(rows, locked, now);
    var batch := Batch(rows, candidates, limit);
    BatchTakesTheFirst(rows, candidates, limit);
    forall id
      ensures id in candidates <==> Waits(rows, locked, now, id)
      ensures IsTaken(jobs, id) <==> id in batch
    {
      CandidatesWait(rows, locked, now, id);
    }
    if |jobs| < limit {
      AllTaken(batch, candidates);
    }
  }

  lemma BatchIsHeld(rows: Rows, batch: seq<int>, now: real, jobs: seq<ClaimedJob>)
    requires |jobs| == |batch| && forall i :: 0 <= i < |batch| ==> batch[i] in rows
    requires forall i :: 0 <= i < |jobs| ==>
               var row := rows[batch[i]];
               jobs[i] == ClaimedJob(batch[i], row.jobType, row.attempts + 1, row.maxAttempts)
    ensures Holds(rows, ClaimedRows(rows, batch, now), now, jobs)
  {
    forall id
      ensures IsTaken(jobs, id) <==> id in batch
    {
      if id in batch {
        var i :| 0 <= i < |batch| && batch[i] == id;
        assert jobs[i].id == id;
      }
    }
    assert forall i :: 0 <= i < |jobs| ==> jobs[i].id in batch;
  }

  lemma CandidatesAreRows(rows: Rows, locked: set<int>, now: real)
    ensures Candidates(rows, locked, now) <= rows.Keys
  {
  }

  /** As many different members as there are members are all of them. */
  lemma {:induction false} AllTaken(batch: seq<int>, candidates: set<int>)
    requires |batch| == |candidates| && forall i :: i in batch ==> i in candidates
    requires forall p, q :: 0 <= p < q < |batch| ==> batch[p] != batch[q]
    ensures forall i :: i in candidates ==> i in batch
    decreases |batch|
  {
    if batch != [] {
      var i, rest := batch[0], batch[1..];
      assert forall j :: j in rest ==> j in batch;
      AllTaken(rest, candidates - {i});
    }
  }

  // ---------------------------------------------------------------------------------------------
  // The table, updated in place
  // ---------------------------------------------------------------------------------------------

  class Table {
    const settings: Settings
    var rows: Rows

    constructor (settings: Settings)
      ensures this.settings == settings && rows == map[]
    {
      this.settings := settings;
      rows := map[];
    }

    /** One statement: the rows another transaction has locked are skipped. */
    method ClaimBatch(limit: nat, locked: set<int>, now: real) returns (jobs: seq<ClaimedJob>)
      modifies this`rows
      ensures var batch := Batch(old(rows), Candidates(old(rows), locked, now), limit);
              && rows == ClaimedRows(old(rows), batch, now)
              && |jobs| == |batch|
              && forall i :: 0 <= i < |jobs| ==>
                   batch[i] in rows &&
                   jobs[i] == ClaimedJob(batch[i], rows[batch[i]].jobType, rows[batch[i]].attempts,
                     rows[batch[i]].maxAttempts)
      ensures TakesWhatWaits(old(rows), locked, now, limit, jobs) && Holds(old(rows), rows, now, jobs)
    {
      hide Batch, TakesWhatWaits, Holds, Claimable, IsTaken;
      var candidates := Candidates(rows, locked, now);
      var batch := Batch(rows, candidates, limit);
      BatchTakesTheFirst(rows, candidates, limit);
      rows := ClaimedRows(rows, batch, now);
      assert forall i :: 0 <= i < |batch| ==> batch[i] in batch;
      jobs := seq(|batch|, i requires 0 <= i < |batch| && batch[i] in rows reads this`rows =>
        ClaimedJob(batch[i], rows[batch[i]].jobType, rows[batch[i]].attempts, rows[batch[i]].maxAttempts));
      BatchTakes(old(rows), locked, now, limit, jobs);
      BatchIsHeld(old(rows), batch, now, jobs);
    }

    method MarkDone(id: int, now: real)
      requires id in rows
      modifies this`rows
      ensures rows == old(rows)[id := Completed(old(rows)[id], now)]
      ensures rows[id].status == Done && rows[id].completedAt == Some(now) && rows[id].lockedAt == None
      ensures SameWork(old(rows)[id], rows[id]) && rows[id].nextAttemptAt == old(rows)[id].nextAttemptAt
      ensures forall i :: i != id ==> (i in rows <==> i in old(rows)) && (i in rows ==> rows[i] == old(rows)[i])
    {
      rows := rows[id := rows[id].(status := Done, completedAt := Some(now), lockedAt := None)];
    }

    method MarkForRetry(job: ClaimedJob, now: real) returns (dead: bool)
      requires job.id in rows
      modifies this`rows
      ensures rows == old(rows)[job.id := Retried(settings, old(rows)[job.id], job, now)]
      ensures dead == job.Exhausted() && (dead <==> rows[job.id].status.Failed?)
      ensures dead <==> job.attempts >= job.maxAttempts
      ensures rows[job.id].lockedAt == None && SameWork(old(rows)[job.id], rows[job.id])
      ensures dead ==>
        rows[job.id].completedAt == Some(now) && rows[job.id].nextAttemptAt == old(rows)[job.id].nextAttemptAt
      ensures !dead ==> rows[job.id].status == Pending && rows[job.id].completedAt == old(rows)[job.id].completedAt
      ensures !dead && job.attempts >= 1 ==>
                var delay := settings.retryBackoff * PowerOfTwo(job.attempts - 1);
                rows[job.id].nextAttemptAt ==
                Some(now + if delay < settings.retryBackoffMax then delay else settings.retryBackoffMax)
      ensures forall i :: i != job.id ==> (i in rows <==> i in old(rows)) && (i in rows ==> rows[i] == old(rows)[i])
    {
      hide RetryDelay;
      if job.attempts >= 1 {
        DelayInFull(settings, job.attempts);
      }
      var row := rows[job.id].(lockedAt := None);
      dead := job.Exhausted();
      if dead {
        row := row.(status := Failed, completedAt := Some(now));
      } else {
        row := row.(status := Pending, nextAttemptAt := Some(now + RetryDelay(settings, job.attempts)));
      }
      rows := rows[job.id := row];
    }

    method Defer(job: ClaimedJob, seconds: real, now: real)
      requires job.id in rows
      modifies this`rows
      ensures rows == old(rows)[job.id := Deferred(old(rows)[job.id], seconds, now)]
      ensures rows[job.id].nextAttemptAt == Some(now + seconds) && rows[job.id].status == Pending
      ensures rows[job.id].lockedAt == None && rows[job.id].attempts == old(rows)[job.id].attempts - 1
      ensures SameWork(old(rows)[job.id], rows[job.id].(attempts := old(rows)[job.id].attempts))
      ensures rows[job.id].completedAt == old(rows)[job.id].completedAt
      ensures forall i :: i != job.id ==> (i in rows <==> i in old(rows)) && (i in rows ==> rows[i] == old(rows)[i])
    {
      var row := rows[job.id];
      rows := rows[job.id := row.(status := Pending, lockedAt := None, attempts := row.attempts - 1,
                                  nextAttemptAt := Some(now + seconds))];
    }

    /** Afterwards no row is stuck. The rows that were are claimable again at once, unless their attempts are
        spent, which are not given back; every other row, and so every claim within the timeout, stays. */
    method ReapStuck(now: real) returns (reaped: set<int>)
      modifies this`rows
      ensures rows.Keys == old(rows).Keys && forall id :: id in rows ==> !Stuck(settings, rows[id], now)
      ensures forall id :: id in rows ==> SameWork(old(rows)[id], rows[id])
      ensures forall id :: id in reaped <==>
                && id in old(rows) && old(rows)[id].status == Processing && old(rows)[id].lockedAt.Some?
                && old(rows)[id].lockedAt.value < now - settings.reaperTimeout
      ensures forall id :: id in reaped ==>
                && id in rows && rows[id].status == Pending && rows[id].lockedAt == None
                && rows[id].nextAttemptAt == None
                && rows[id].completedAt == old(rows)[id].completedAt && (Claimable(rows[id], now) || Spent(rows[id]))
      ensures forall id :: id in rows && rows[id] != old(rows)[id] ==> id in reaped
      ensures rows == map id | id in old(rows) :: Reaped(settings, old(rows)[id], now)
      ensures reaped == set id | id in old(rows) && Stuck(settings, old(rows)[id], now)
    {
      reaped := set id | id in rows && Stuck(settings, rows[id], now);
      rows := map id | id in rows :: Reaped(settings, rows[id], now);
    }

    /** Afterwards whatever is pending has attempts left. Exactly the pending rows without any fail, and no
        other row moves. */
    method FailExhausted(now: real) returns (failed: set<int>)
      modifies this`rows
      ensures rows.Keys == old(rows).Keys
      ensures forall id :: id in rows && rows[id].status.Pending? ==> rows[id].attempts < rows[id].maxAttempts
      ensures forall id :: id in rows ==> SameWork(old(rows)[id], rows[id])
      ensures forall id :: id in failed <==>
                && id in old(rows) && old(rows)[id].status == Pending
                && old(rows)[id].attempts >= old(rows)[id].maxAttempts
      ensures forall id :: id in failed ==>
                && id in rows && rows[id].status == Failed && rows[id].lockedAt == None
                && rows[id].completedAt == Some(now) && rows[id].nextAttemptAt == old(rows)[id].nextAttemptAt
      ensures forall id :: id in rows && rows[id] != old(rows)[id] ==> id in failed
      ensures rows == map id | id in old(rows) :: Swept(old(rows)[id], now)
      ensures failed == set id | id in old(rows) && Spent(old(rows)[id])
    {
      failed := set id | id in rows && Spent(rows[id]);
      rows := map id | id in rows :: Swept(rows[id], now);
    }

    /** Reap, then fail, in one transaction: a row whose last attempt died with its worker is failed by
        the same pass. */
    method Sweep(now: real) returns (reaped: set<int>, failed: set<int>)
      modifies this`rows
      ensures rows == SweptRows(settings, old(rows), now)
      ensures forall id :: id in old(rows) && Stuck(settings, old(rows)[id], now) &&
                           old(rows)[id].attempts >= old(rows)[id].maxAttempts
                ==> id in reaped && id in failed && rows[id].status.Failed?
    {
      reaped := ReapStuck(now);
      failed := FailExhausted(now);
    }
  }
}
