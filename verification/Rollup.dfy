/**
  The daily rollup: one row per repository, workflow, job name and UTC day, recomputed from the facts.
 */
module Rollup {
  import opened Wrappers
  import opened Merge
  import opened Detection

  const SECONDS_PER_DAY := 86400

  /** The UTC day of an instant in epoch seconds. */
  function DayOf(instant: int): int {
    instant / SECONDS_PER_DAY
  }

  /** The unique key of a rollup row, in which an unknown workflow is a value like any other. */
  datatype StatKey = StatKey(repoId: int, workflowId: Option<int>, name: string, day: int)

  /** The duration columns: any summary of the durations of the day's runs. */
  datatype Summary = Summary(p50: Option<real>, p95: Option<real>, total: Option<real>)

  type Summarize = map<int, int> -> Summary

  datatype Stats = Stats(
    runs: nat, opportunities: nat, failures: nat, flakes: nat, lastFlakeAt: Option<int>, durations: Summary)

  datatype Facts = Facts(jobs: map<int, JobRow>, events: Events)

  function CompletedAtOf(job: JobRow): Option<int> {
    NumberCell(job.progress, CompletedAt)
  }

  predicate Finished(job: JobRow) {
    CompletedAtOf(job).Some?
  }

  function KeyOf(job: JobRow): StatKey
    requires Finished(job)
  {
    StatKey(job.repoId, job.workflowId, job.name, DayOf(CompletedAtOf(job).value))
  }

  // ---------------------------------------------------------------------------------------------
  // The aggregate
  // ---------------------------------------------------------------------------------------------

  /** The distinct job ids that some event of the repository names in its evidence. */
  function Implicated(events: Events, repoId: int): set<int> {
    set key, id | key in events && key.repoId == repoId && id in events[key].evidence.jobIds :: id
  }

  function Members(jobs: map<int, JobRow>, key: StatKey): set<int> {
    set id | id in jobs && Finished(jobs[id]) && KeyOf(jobs[id]) == key
  }

  predicate IsFailure(settings: Settings, job: JobRow) {
    IsOpportunity(settings, job.progress) && TextCell(job.progress, Conclusion) != Some(SUCCESS)
  }

  function Opportunities(settings: Settings, jobs: map<int, JobRow>, ids: set<int>): set<int> {
    set id | id in ids && id in jobs && IsOpportunity(settings, jobs[id].progress)
  }

  function Failures(settings: Settings, jobs: map<int, JobRow>, ids: set<int>): set<int> {
    set id | id in ids && id in jobs && IsFailure(settings, jobs[id])
  }

  /** Runs that a signal named and that were eligible to be judged. */
  function Flakes(settings: Settings, facts: Facts, repoId: int, ids: set<int>): set<int> {
    Opportunities(settings, facts.jobs, ids) * Implicated(facts.events, repoId)
  }

  function LatestCompletion(jobs: map<int, JobRow>, ids: set<int>): Option<int>
    decreases |ids|
  {
    if ids == {} then None
    else
      var i := Detection.Least(ids);
      var rest := LatestCompletion(jobs, ids - {i});
      var own := if i in jobs then CompletedAtOf(jobs[i]) else None;
      if own.None? || (rest.Some? && rest.value >= own.value) then rest else own
  }

  /** The latest completion is attained, and no completion is later. */
  lemma {:induction false} LatestCompletionIsTheMaximum(jobs: map<int, JobRow>, ids: set<int>)
    ensures var latest := LatestCompletion(jobs, ids);
            && (latest.Some? <==> exists id :: id in ids && id in jobs && Finished(jobs[id]))
            && (latest.Some? ==>
                  && (exists id :: id in ids && id in jobs && CompletedAtOf(jobs[id]) == latest)
                  && forall id :: id in ids && id in jobs && Finished(jobs[id]) ==>
                       CompletedAtOf(jobs[id]).value <= latest.value)
    decreases |ids|
  {
    if ids != {} {
      var i := Detection.Least(ids);
      LatestCompletionIsTheMaximum(jobs, ids - {i});
      assert forall id :: id in ids ==> id == i || id in ids - {i};
    }
  }

  function Durations(jobs: map<int, JobRow>, ids: set<int>): map<int, int> {
    map id | id in ids && id in jobs && Finished(jobs[id]) && NumberCell(jobs[id].progress, StartedAt).Some? ::
      CompletedAtOf(jobs[id]).value - NumberCell(jobs[id].progress, StartedAt).value
  }

  function StatsFor(settings: Settings, facts: Facts, summarize: Summarize, key: StatKey): Stats {
    var ids := Members(facts.jobs, key);
    var flaky := Flakes(settings, facts, key.repoId, ids);
    Stats(|ids|, |Opportunities(settings, facts.jobs, ids)|, |Failures(settings, facts.jobs, ids)|, |flaky|,
          LatestCompletion(facts.jobs, flaky), summarize(Durations(facts.jobs, ids)))
  }

  function KeysSince(jobs: map<int, JobRow>, repoId: int, since: int): set<StatKey> {
    set id | id in jobs && Finished(jobs[id]) && jobs[id].repoId == repoId && KeyOf(jobs[id]).day >= since ::
      KeyOf(jobs[id])
  }

  /** One row per workflow, job name and day of the repository, from the day `since` on. */
  function Aggregate(
    settings: Settings, facts: Facts, summarize: Summarize, repoId: int, since: int): map<StatKey, Stats>
  {
    map key | key in KeysSince(facts.jobs, repoId, since) :: StatsFor(settings, facts, summarize, key)
  }

  /** Every count is a count of distinct runs: a run both signals name counts once, and flakes and
      failures never exceed opportunities, whatever the events say. */
  lemma CountsAreOrdered(settings: Settings, facts: Facts, summarize: Summarize, key: StatKey)
    ensures var s := StatsFor(settings, facts, summarize, key);
            s.flakes <= s.opportunities <= s.runs && s.failures <= s.opportunities
  {
    var ids := Members(facts.jobs, key);
    var opportunities := Opportunities(settings, facts.jobs, ids);
    SubsetCount(opportunities, ids);
    assert forall id :: id in Failures(settings, facts.jobs, ids) ==>
             IsFailure(settings, facts.jobs[id]) && id in opportunities;
    SubsetCount(Failures(settings, facts.jobs, ids), opportunities);
    SubsetCount(Flakes(settings, facts, key.repoId, ids), opportunities);
  }

  lemma SubsetCount<T>(a: set<T>, b: set<T>)
    requires a <= b
    ensures |a| <= |b|
  {
    assert b == a + (b - a);
    assert |b| == |a| + |b - a|;
  }

  // ---------------------------------------------------------------------------------------------
  // The table
  // ---------------------------------------------------------------------------------------------

  datatype StatRow = StatRow(key: StatKey, stats: Stats, createdAt: int)

  type Rows = map<int, StatRow>

  predicate InScope(row: StatRow, repoId: int, since: int) {
    row.key.repoId == repoId && row.key.day >= since
  }

  /** The constraint on the key, nulls not distinct. */
  ghost predicate Unique(rows: Rows) {
    forall i, j :: i in rows && j in rows && rows[i].key == rows[j].key ==> i == j
  }

  ghost function KeysInScope(rows: Rows, repoId: int, since: int): set<StatKey> {
    set id | id in rows && InScope(rows[id], repoId, since) :: rows[id].key
  }

  /** The rows of one repository from a day on, by key. */
  ghost function Window(rows: Rows, repoId: int, since: int): map<StatKey, Stats>
    requires Unique(rows)
  {
    map key | key in KeysInScope(rows, repoId, since) :: var id :| id in rows && rows[id].key == key; rows[id].stats
  }

  /** What one recompute does to the table: the rows in scope are those of the aggregate, surviving keys
      keep their ids and their creation times, and everything out of scope is untouched. */
  ghost predicate RolledUp(before: Rows, after: Rows, aggregate: map<StatKey, Stats>, repoId: int, since: int) {
    && Unique(after)
    && (forall id :: id in before && !InScope(before[id], repoId, since) ==> id in after && after[id] == before[id])
    && (forall id :: id in before && InScope(before[id], repoId, since) ==>
          if before[id].key in aggregate then
            id in after && after[id] == before[id].(stats := aggregate[before[id].key])
          else id !in after)
    && (forall id :: id in after && id !in before ==>
          && InScope(after[id], repoId, since)
          && after[id].key in aggregate && after[id].stats == aggregate[after[id].key]
          && forall j :: j in before ==> before[j].key != after[id].key)
    && (forall key :: key in aggregate ==> HasKey(after, key))
  }

  ghost predicate HasKey(rows: Rows, key: StatKey) {
    exists id :: id in rows && rows[id].key == key
  }

  /** Whatever the table held before, the repository's window is the aggregate of the facts. */
  lemma WindowIsTheAggregate(before: Rows, after: Rows, aggregate: map<StatKey, Stats>, repoId: int, since: int)
    requires RolledUp(before, after, aggregate, repoId, since)
    requires forall key :: key in aggregate ==> key.repoId == repoId && key.day >= since
    ensures Window(after, repoId, since) == aggregate
  {
    var window := Window(after, repoId, since);
    forall key
      ensures key in window <==> key in aggregate
      ensures key in aggregate ==> window[key] == aggregate[key]
    {
      if key in aggregate {
        assert HasKey(after, key);
        var id :| id in after && after[id].key == key;
        assert InScope(after[id], repoId, since);
      }
    }
    assert window == aggregate;
  }

  function Outside(rows: Rows, repoId: int, since: int): Rows {
    map id | id in rows && !InScope(rows[id], repoId, since) :: rows[id]
  }

  /** Other repositories, and days before the window, do not move. */
  lemma OthersUntouched(before: Rows, after: Rows, aggregate: map<StatKey, Stats>, repoId: int, since: int)
    requires RolledUp(before, after, aggregate, repoId, since)
    ensures Outside(after, repoId, since) == Outside(before, repoId, since)
  {
    var was, now := Outside(before, repoId, since), Outside(after, repoId, since);
    forall id | id in was
      ensures id in now && now[id] == was[id]
    {
      assert id in before && !InScope(before[id], repoId, since);
      assert id in after && after[id] == before[id];
    }
    forall id | id in now
      ensures id in was
    {
      assert id in after && !InScope(after[id], repoId, since);
      assert id in before;
      assert InScope(before[id], repoId, since) == InScope(after[id], repoId, since);
    }
    assert now.Keys == was.Keys;
  }

  /** A second recompute of the same facts changes nothing at all: not even a row id. */
  lemma SecondRollupChangesNothing(
    before: Rows, after: Rows, again: Rows, aggregate: map<StatKey, Stats>, repoId: int, since: int)
    requires RolledUp(before, after, aggregate, repoId, since) && RolledUp(after, again, aggregate, repoId, since)
    ensures again == after
  {
    forall id | id in after
      ensures id in again && after[id] == again[id]
    {
    }
    forall id | id in again
      ensures id in after
    {
      assert again[id].key in aggregate ==> HasKey(after, again[id].key);
    }
    assert again.Keys == after.Keys;
  }

  class StatsTable {
    var rows: Rows
    var nextId: int

    ghost predicate Valid()
      reads this
    {
      Unique(rows) && forall id :: id in rows ==> id < nextId
    }

    constructor ()
      ensures Valid() && rows == map[]
    {
      rows := map[];
      nextId := 1;
    }

    /** INSERT ... ON CONFLICT DO UPDATE for one key: the row that has the key keeps its id. */
    method Upsert(key: StatKey, stats: Stats, now: int) returns (id: int)
      requires Valid()
      modifies this
      ensures Valid() && id in rows && nextId >= old(nextId)
      ensures Put(old(rows), rows, key, stats, id, now)
    {
      var holders := set i | i in rows && rows[i].key == key;
      if holders != {} {
        id := Detection.Least(holders);
        rows := rows[id := rows[id].(stats := stats)];
      } else {
        id := nextId;
        assert forall i :: i in rows && rows[i].key == key ==> i in holders;
        rows := rows[id := StatRow(key, stats, now)];
        nextId := nextId + 1;
      }
    }

    /** The INSERT ... SELECT: one upsert per row of the aggregate, and the ids it returns. */
    method UpsertAll(aggregate: map<StatKey, Stats>, now: int) returns (written: set<int>)
      requires Valid()
      modifies this
      ensures Valid() && Upserted(old(rows), rows, aggregate, {})
      ensures written == HoldersOf(rows, aggregate.Keys) && |written| == |aggregate|
    {
      ghost var before := rows;
      var todo := aggregate.Keys;
      written := {};
      while todo != {}
        invariant Valid() && todo <= aggregate.Keys
        invariant Filling(before, rows, aggregate, todo, written)
        decreases |todo|
      {
        var key :| key in todo;
        ghost var was := rows;
        var id := Upsert(key, aggregate[key], now);
        FillingOneMore(before, was, rows, aggregate, todo, written, key, id, now);
        written := written + {id};
        todo := todo - {key};
      }
      assert aggregate.Keys - todo == aggregate.Keys;
    }

    /** The DELETE after the INSERT: of the rows in scope only those just written are left, and no other
        row goes or changes. */
    method DeleteOthers(repoId: int, since: int, written: set<int>) returns (removed: nat)
      requires Valid()
      modifies this
      ensures forall id :: id in rows && InScope(rows[id], repoId, since) ==> id in written
      ensures forall id :: id in rows ==> id in old(rows) && rows[id] == old(rows)[id]
      ensures forall id :: id in old(rows) && (id in written || !InScope(old(rows)[id], repoId, since)) ==> id in rows
      ensures |rows| + removed == |old(rows)|
      ensures Valid() && rows == old(rows) - Others(old(rows), repoId, since, written)
      ensures removed == |Others(old(rows), repoId, since, written)|
    {
      var stale := Others(rows, repoId, since, written);
      ghost var before := rows;
      rows := rows - stale;
      removed := |stale|;
      assert before.Keys == rows.Keys + stale && rows.Keys !! stale;
      assert |before.Keys| == |rows.Keys| + |stale|;
    }

    /** Recomputes one repository's trailing window. */
    method RollupRepository(settings: Settings, facts: Facts, summarize: Summarize, repoId: int, since: int, now: int)
      returns (written: nat, removed: nat)
      requires Valid()
      modifies this
      ensures Valid()
      ensures RolledUp(old(rows), rows, Aggregate(settings, facts, summarize, repoId, since), repoId, since)
      ensures written == |Aggregate(settings, facts, summarize, repoId, since)|
    {
      written, removed := Recompute(Aggregate(settings, facts, summarize, repoId, since), repoId, since, now);
    }

    method Recompute(
      aggregate: map<StatKey, Stats>, repoId: int, since: int, now: int) returns (written: nat, removed: nat)
      requires Valid()
      requires forall key :: key in aggregate ==> key.repoId == repoId && key.day >= since
      modifies this
      ensures Valid() && RolledUp(old(rows), rows, aggregate, repoId, since)
      ensures written == |aggregate|
    {
      ghost var before := rows;
      var ids := UpsertAll(aggregate, now);
      ghost var filled := rows;
      written := |ids|;
      removed := DeleteOthers(repoId, since, ids);
      DeletedStale(before, filled, rows, aggregate, repoId, since);
    }
  }

  function HoldersOf(rows: Rows, keys: set<StatKey>): set<int> {
    set id | id in rows && rows[id].key in keys
  }

  function Others(rows: Rows, repoId: int, since: int, written: set<int>): set<int> {
    set id | id in rows && InScope(rows[id], repoId, since) && id !in written
  }

  ghost predicate Filling(
    before: Rows, rows: Rows, aggregate: map<StatKey, Stats>, todo: set<StatKey>, written: set<int>)
  {
    && Upserted(before, rows, aggregate, todo)
    && written == HoldersOf(rows, aggregate.Keys - todo)
    && |written| + |todo| == |aggregate|
  }

  lemma FillingOneMore(
    before: Rows, was: Rows, rows: Rows, aggregate: map<StatKey, Stats>, todo: set<StatKey>, written: set<int>,
    key: StatKey, id: int, now: int)
    requires key in todo && key in aggregate && Unique(was) && Filling(before, was, aggregate, todo, written)
    requires Put(was, rows, key, aggregate[key], id, now)
    ensures Filling(before, rows, aggregate, todo - {key}, written + {id})
  {
    UpsertedOneMore(before, was, rows, aggregate, todo, key, id, now);
    WrittenOneMore(was, rows, aggregate.Keys - todo, key, aggregate[key], id, now);
    assert aggregate.Keys - (todo - {key}) == (aggregate.Keys - todo) + {key};
  }

  /** What one upsert does. */
  ghost predicate Put(was: Rows, rows: Rows, key: StatKey, stats: Stats, id: int, now: int) {
    if HasKey(was, key) then id in was && was[id].key == key && rows == was[id := was[id].(stats := stats)]
    else id !in was && rows == was[id := StatRow(key, stats, now)]
  }

  lemma WrittenOneMore(was: Rows, rows: Rows, keys: set<StatKey>, key: StatKey, stats: Stats, id: int, now: int)
    requires Unique(was) && key !in keys && Put(was, rows, key, stats, id, now)
    ensures HoldersOf(rows, keys + {key}) == HoldersOf(was, keys) + {id} && id !in HoldersOf(was, keys)
  {
    forall i
      ensures i in HoldersOf(rows, keys + {key}) <==> i in HoldersOf(was, keys) + {id}
    {
      assert i in was && was[i].key == key ==> HasKey(was, key);
    }
  }

  /** The table after the keys not in `todo` were upserted. */
  ghost predicate Upserted(before: Rows, rows: Rows, aggregate: map<StatKey, Stats>, todo: set<StatKey>) {
    && (forall id :: id in before ==>
          && id in rows
          && rows[id] == if before[id].key in aggregate && before[id].key !in todo
                         then before[id].(stats := aggregate[before[id].key]) else before[id])
    && (forall id :: id in rows && id !in before ==>
          && rows[id].key in aggregate && rows[id].key !in todo && rows[id].stats == aggregate[rows[id].key]
          && !HasKey(before, rows[id].key))
    && (forall key :: key in aggregate && key !in todo ==> HasKey(rows, key))
  }

  lemma UpsertedOneMore(
    before: Rows, was: Rows, rows: Rows, aggregate: map<StatKey, Stats>, todo: set<StatKey>, key: StatKey, id: int,
    now: int)
    requires key in todo && key in aggregate && Unique(was) && Upserted(before, was, aggregate, todo)
    requires Put(was, rows, key, aggregate[key], id, now)
    ensures Upserted(before, rows, aggregate, todo - {key})
  {
    assert rows[id].key == key;
    assert forall i :: i in before && before[i].key == key ==> i in was && was[i].key == key && i == id;
    forall k | k in aggregate && k !in todo - {key}
      ensures HasKey(rows, k)
    {
      if k != key {
        assert HasKey(was, k);
        var i :| i in was && was[i].key == k;
        assert i in rows && rows[i].key == k;
      }
    }
    if !HasKey(was, key) {
      assert forall i :: i in before ==> i in was && was[i].key == before[i].key;
    }
  }

  lemma DeletedStale(before: Rows, filled: Rows, after: Rows, aggregate: map<StatKey, Stats>, repoId: int, since: int)
    requires Unique(filled) && Upserted(before, filled, aggregate, {})
    requires forall key :: key in aggregate ==> key.repoId == repoId && key.day >= since
    requires after == filled - Others(filled, repoId, since, HoldersOf(filled, aggregate.Keys))
    ensures RolledUp(before, after, aggregate, repoId, since)
  {
    forall key | key in aggregate
      ensures HasKey(after, key)
    {
      assert HasKey(filled, key);
      var id :| id in filled && filled[id].key == key;
      assert id in after;
    }
    forall id | id in after && id !in before
      ensures forall j :: j in before ==> before[j].key != after[id].key
    {
      assert !HasKey(before, filled[id].key);
    }
  }
}
