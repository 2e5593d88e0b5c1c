/**
  The sweep that keeps the rollup fresh by recomputing only the repositories whose job rows moved lately.
 */
module Activity {
  import opened Wrappers
  import opened Merge
  import opened Detection
  import opened Handlers
  import opened Convergence
  import opened Rollup
  import Signals

  datatype Config = Config(settings: Settings, summarize: Summarize, interval: nat, windowDays: nat)

  /** Slack, in sweep intervals, in what counts as recent. */
  const SLACK := 3

  function SinceDay(c: Config, now: int): int {
    DayOf(now - c.windowDays * SECONDS_PER_DAY)
  }

  function FactsOf(st: State): Facts {
    Facts(st.jobs, st.events)
  }

  ghost function Truth(c: Config, st: State, repoId: int, since: int): map<StatKey, Stats> {
    Aggregate(c.settings, FactsOf(st), c.summarize, repoId, since)
  }

  // ---------------------------------------------------------------------------------------------
  // The aggregate of one repository depends on nothing else
  // ---------------------------------------------------------------------------------------------

  ghost predicate SameJobsIn(f: Facts, g: Facts, repoId: int) {
    && (forall id :: id in f.jobs && f.jobs[id].repoId == repoId ==> id in g.jobs && g.jobs[id] == f.jobs[id])
    && (forall id :: id in g.jobs && g.jobs[id].repoId == repoId ==> id in f.jobs && f.jobs[id] == g.jobs[id])
  }

  ghost predicate SameEventsIn(f: Events, g: Events, repoId: int) {
    forall key: EventKey :: key.repoId == repoId ==>
      (key in f <==> key in g) && (key in f && key in g ==> f[key] == g[key])
  }

  lemma {:induction false} LatestCompletionIsLocal(f: Jobs, g: Jobs, ids: set<int>)
    requires forall id :: id in ids ==> id in f && id in g && f[id] == g[id]
    ensures LatestCompletion(f, ids) == LatestCompletion(g, ids)
    decreases |ids|
  {
    if ids != {} {
      LatestCompletionIsLocal(f, g, ids - {Detection.Least(ids)});
    }
  }

  lemma MembersAreLocal(f: Facts, g: Facts, key: StatKey)
    requires SameJobsIn(f, g, key.repoId)
    ensures Members(f.jobs, key) == Members(g.jobs, key)
    ensures forall id :: id in Members(f.jobs, key) ==> id in f.jobs && id in g.jobs && f.jobs[id] == g.jobs[id]
  {
    forall id
      ensures id in Members(f.jobs, key) <==> id in Members(g.jobs, key)
    {
      assert id in f.jobs && Finished(f.jobs[id]) && KeyOf(f.jobs[id]) == key ==> f.jobs[id].repoId == key.repoId;
      assert id in g.jobs && Finished(g.jobs[id]) && KeyOf(g.jobs[id]) == key ==> g.jobs[id].repoId == key.repoId;
    }
  }

  lemma CountsAreLocal(settings: Settings, f: Jobs, g: Jobs, ids: set<int>)
    requires forall id :: id in ids ==> id in f && id in g && f[id] == g[id]
    ensures Opportunities(settings, f, ids) == Opportunities(settings, g, ids)
    ensures Failures(settings, f, ids) == Failures(settings, g, ids)
    ensures Durations(f, ids) == Durations(g, ids)
  {
    forall id
      ensures id in Opportunities(settings, f, ids) <==> id in Opportunities(settings, g, ids)
      ensures id in Failures(settings, f, ids) <==> id in Failures(settings, g, ids)
      ensures id in Durations(f, ids) <==> id in Durations(g, ids)
    {
      assert id in ids ==> id in f && id in g && f[id] == g[id];
    }
    var d, e := Durations(f, ids), Durations(g, ids);
    forall id | id in d
      ensures id in e && d[id] == e[id]
    {
      assert id in ids;
    }
    assert d.Keys == e.Keys;
    assert d == e;
  }

  lemma StatsAreLocal(c: Config, f: Facts, g: Facts, key: StatKey)
    requires SameJobsIn(f, g, key.repoId) && SameEventsIn(f.events, g.events, key.repoId)
    ensures StatsFor(c.settings, f, c.summarize, key) == StatsFor(c.settings, g, c.summarize, key)
  {
    MembersAreLocal(f, g, key);
    var ids := Members(f.jobs, key);
    CountsAreLocal(c.settings, f.jobs, g.jobs, ids);
    ImplicatedIsLocal(f.events, g.events, key.repoId);
    LatestCompletionIsLocal(f.jobs, g.jobs, Flakes(c.settings, f, key.repoId, ids));
  }

  lemma ImplicatedIsLocal(f: Events, g: Events, repoId: int)
    requires SameEventsIn(f, g, repoId)
    ensures Implicated(f, repoId) == Implicated(g, repoId)
  {
    forall id
      ensures id in Implicated(f, repoId) <==> id in Implicated(g, repoId)
    {
      if id in Implicated(f, repoId) {
        var key :| key in f && key.repoId == repoId && id in f[key].evidence.jobIds;
        assert key in g;
      }
      if id in Implicated(g, repoId) {
        var key :| key in g && key.repoId == repoId && id in g[key].evidence.jobIds;
        assert key in f;
      }
    }
  }

  lemma AggregateIsLocal(c: Config, f: Facts, g: Facts, repoId: int, since: int)
    requires SameJobsIn(f, g, repoId) && SameEventsIn(f.events, g.events, repoId)
    ensures Aggregate(c.settings, f, c.summarize, repoId, since) == Aggregate(c.settings, g, c.summarize, repoId, since)
  {
    assert KeysSince(f.jobs, repoId, since) == KeysSince(g.jobs, repoId, since);
    forall key | key in KeysSince(f.jobs, repoId, since)
      ensures StatsFor(c.settings, f, c.summarize, key) == StatsFor(c.settings, g, c.summarize, key)
    {
      StatsAreLocal(c, f, g, key);
    }
  }

  // ---------------------------------------------------------------------------------------------
  // The window slides
  // ---------------------------------------------------------------------------------------------

  function From(stats: map<StatKey, Stats>, day: int): map<StatKey, Stats> {
    map key | key in stats && key.day >= day :: stats[key]
  }

  lemma AggregateSlides(settings: Settings, facts: Facts, summarize: Summarize, repoId: int, since: int, later: int)
    requires since <= later
    ensures Aggregate(settings, facts, summarize, repoId, later)
         == From(Aggregate(settings, facts, summarize, repoId, since), later)
  {
    forall key
      ensures key in KeysSince(facts.jobs, repoId, later) <==>
                key in KeysSince(facts.jobs, repoId, since) && key.day >= later
    {
    }
  }

  lemma WindowSlides(rows: Rows, repoId: int, since: int, later: int)
    requires Unique(rows) && since <= later
    ensures Window(rows, repoId, later) == From(Window(rows, repoId, since), later)
  {
    forall key
      ensures key in KeysInScope(rows, repoId, later) <==> key in KeysInScope(rows, repoId, since) && key.day >= later
    {
    }
  }

  // ---------------------------------------------------------------------------------------------
  // Recomputing some repositories
  // ---------------------------------------------------------------------------------------------

  /** The repositories in `repos` agree with the facts, and no other repository's rows moved. */
  ghost predicate Refreshed(
    settings: Settings, facts: Facts, summarize: Summarize, before: Rows, after: Rows, repos: set<int>, since: int)
  {
    && Unique(before) && Unique(after)
    && (forall r :: r in repos ==> Window(after, r, since) == Aggregate(settings, facts, summarize, r, since))
    && forall r, day :: r !in repos ==> Window(after, r, day) == Window(before, r, day)
  }

  lemma OutsideWindows(before: Rows, after: Rows, repoId: int, since: int, other: int, day: int)
    requires Unique(before) && Unique(after) && Outside(after, repoId, since) == Outside(before, repoId, since)
    requires other != repoId
    ensures Window(after, other, day) == Window(before, other, day)
  {
    SameRowsSameWindow(before, after, repoId, since, other, day);
    SameRowsSameWindow(after, before, repoId, since, other, day);
    assert Window(after, other, day).Keys == Window(before, other, day).Keys;
  }

  lemma SameRowsSameWindow(a: Rows, b: Rows, repoId: int, since: int, other: int, day: int)
    requires Unique(a) && Unique(b) && Outside(a, repoId, since) == Outside(b, repoId, since) && other != repoId
    ensures forall key :: key in Window(a, other, day) ==>
              key in Window(b, other, day) && Window(a, other, day)[key] == Window(b, other, day)[key]
  {
    forall key | key in Window(a, other, day)
      ensures key in Window(b, other, day) && Window(a, other, day)[key] == Window(b, other, day)[key]
    {
      var id :| id in a && InScope(a[id], other, day) && a[id].key == key;
      assert id in Outside(a, repoId, since);
      assert id in Outside(b, repoId, since) && b[id] == a[id];
    }
  }

  lemma OneRepoMoves(before: Rows, after: Rows, aggregate: map<StatKey, Stats>, repoId: int, since: int)
    requires Unique(before) && RolledUp(before, after, aggregate, repoId, since)
    requires forall key :: key in aggregate ==> key.repoId == repoId && key.day >= since
    ensures Window(after, repoId, since) == aggregate
    ensures forall r, day :: r != repoId ==> Window(after, r, day) == Window(before, r, day)
  {
    WindowIsTheAggregate(before, after, aggregate, repoId, since);
    OthersUntouched(before, after, aggregate, repoId, since);
    forall r, day | r != repoId
      ensures Window(after, r, day) == Window(before, r, day)
    {
      OutsideWindows(before, after, repoId, since, r, day);
    }
  }

  lemma RefreshedOneMore(
    settings: Settings, facts: Facts, summarize: Summarize, start: Rows, before: Rows, after: Rows,
    repos: set<int>, repoId: int, since: int)
    requires Refreshed(settings, facts, summarize, start, before, repos, since)
    requires RolledUp(before, after, Aggregate(settings, facts, summarize, repoId, since), repoId, since)
    ensures Refreshed(settings, facts, summarize, start, after, repos + {repoId}, since)
  {
    OneRepoMoves(before, after, Aggregate(settings, facts, summarize, repoId, since), repoId, since);
    forall r | r in repos + {repoId}
      ensures Window(after, r, since) == Aggregate(settings, facts, summarize, r, since)
    {
      assert r != repoId ==> r in repos && Window(after, r, since) == Window(before, r, since);
    }
  }

  /** One turn of the loop, in a transaction of its own. */
  method RollupOne(
    table: StatsTable, settings: Settings, facts: Facts, summarize: Summarize, repoId: int, since: int, now: int,
    ghost start: Rows, ghost done: set<int>)
    requires table.Valid() && Refreshed(settings, facts, summarize, start, table.rows, done, since)
    modifies table
    ensures table.Valid() && Refreshed(settings, facts, summarize, start, table.rows, done + {repoId}, since)
  {
    ghost var before := table.rows;
    var _, _ := table.RollupRepository(settings, facts, summarize, repoId, since, now);
    RefreshedOneMore(settings, facts, summarize, start, before, table.rows, done, repoId, since);
  }

  /** `rollup_repos`: one repository after the other. */
  method RollupRepos(
    table: StatsTable, settings: Settings, facts: Facts, summarize: Summarize, repoIds: seq<int>, since: int, now: int)
    requires table.Valid()
    modifies table
    ensures table.Valid()
    ensures Refreshed(settings, facts, summarize, old(table.rows), table.rows, Elements(repoIds), since)
  {
    ghost var start := table.rows;
    for i := 0 to |repoIds|
      invariant table.Valid()
      invariant Refreshed(settings, facts, summarize, start, table.rows, Elements(repoIds[..i]), since)
    {
      RollupOne(table, settings, facts, summarize, repoIds[i], since, now, start, Elements(repoIds[..i]));
      assert Elements(repoIds[..i + 1]) == Elements(repoIds[..i]) + {repoIds[i]};
    }
    assert repoIds[..|repoIds|] == repoIds;
  }

  // ---------------------------------------------------------------------------------------------
  // Runs
  // ---------------------------------------------------------------------------------------------

  /** The tables, the time each job row was last written, and the worker's clock. */
  datatype Sys = Sys(st: State, updatedAt: map<int, int>, rows: Rows, now: int, lastSweep: int)

  /** A delivery is handled in a transaction begun at `started`, which is the time its rows are stamped
      with. A sweep leaves the given rollup rows. */
  datatype Step = Deliver(d: Delivery, started: int) | Sweep(rows: Rows) | Tick(seconds: nat)

  /** The job rows a delivery writes. */
  function Written(st: State, d: Delivery): set<int> {
    if !WellFormed(d) then {}
    else
      match d
      case JobDelivery(_, _, job) => {job.id.value}
      case RunDelivery(repoId, _, run, workflow) =>
        if RunWorkflowId(RunsAfterRun(st.runs, repoId.value, run.id.value, run, workflow), run.id.value).None? then {}
        else set id | id in st.jobs && st.jobs[id].runId == run.id.value && st.jobs[id].workflowId.None?
  }

  function Stamped(updatedAt: map<int, int>, written: set<int>, at: int): map<int, int> {
    map id | id in updatedAt.Keys + written :: if id in written then at else updatedAt[id]
  }

  predicate WroteSince(sys: Sys, id: int, at: int) {
    id in sys.updatedAt && sys.updatedAt[id] >= at
  }

  /** `repos_with_recent_activity`. */
  function Recent(c: Config, sys: Sys): set<int> {
    set id | id in sys.st.jobs && WroteSince(sys, id, sys.now - SLACK * c.interval) :: sys.st.jobs[id].repoId
  }

  /** `rollup_recent`: the rows it leaves are rows a sweep may leave. */
  method RollupRecent(c: Config, sys: Sys, table: StatsTable)
    requires table.Valid() && table.rows == sys.rows
    modifies table
    ensures table.Valid()
    ensures Refreshed(c.settings, FactsOf(sys.st), c.summarize, sys.rows, table.rows,
                      Recent(c, sys), SinceDay(c, sys.now))
  {
    var repoIds := SortedIds(Recent(c, sys));
    Signals.SortedIdsAreTheSet(Recent(c, sys));
    assert forall r :: r in Elements(repoIds) <==> r in Recent(c, sys);
    assert Elements(repoIds) == Recent(c, sys);
    RollupRepos(table, c.settings, FactsOf(sys.st), c.summarize, repoIds, SinceDay(c, sys.now), sys.now);
  }

  /** One worker sweeps between transactions, so a transaction begins after the last sweep. */
  ghost predicate Enabled(c: Config, w: World, sys: Sys, step: Step) {
    match step
    case Deliver(d, started) => Consistent(w, d) && sys.lastSweep <= started <= sys.now
    case Sweep(rows) =>
      Refreshed(c.settings, FactsOf(sys.st), c.summarize, sys.rows, rows, Recent(c, sys), SinceDay(c, sys.now))
    case Tick(_) => true
  }

  function Do(c: Config, sys: Sys, step: Step): Sys {
    match step
    case Deliver(d, started) =>
      sys.(st := Handled(c.settings, sys.st, d), updatedAt := Stamped(sys.updatedAt, Written(sys.st, d), started))
    case Sweep(rows) => sys.(rows := rows, lastSweep := sys.now)
    case Tick(seconds) => sys.(now := sys.now + seconds)
  }

  /** Consecutive sweeps are at most three intervals apart. */
  predicate InTime(c: Config, sys: Sys, step: Step) {
    step.Sweep? ==> sys.now - sys.lastSweep <= SLACK * c.interval
  }

  ghost predicate CanRun(c: Config, w: World, sys: Sys, run: seq<Step>)
    decreases |run|
  {
    run == [] || (Enabled(c, w, sys, run[0]) && InTime(c, sys, run[0]) && CanRun(c, w, Do(c, sys, run[0]), run[1..]))
  }

  function RunAll(c: Config, sys: Sys, run: seq<Step>): Sys
    decreases |run|
  {
    if run == [] then sys else RunAll(c, Do(c, sys, run[0]), run[1..])
  }

  // ---------------------------------------------------------------------------------------------
  // Invariant
  // ---------------------------------------------------------------------------------------------

  /** The repository's rolled-up window agrees with the facts. */
  ghost predicate Fresh(c: Config, sys: Sys, repoId: int, since: int)
    requires Unique(sys.rows)
  {
    Window(sys.rows, repoId, since) == Truth(c, sys.st, repoId, since)
  }

  /** A job row of the repository was written since the last sweep. */
  ghost predicate Dirty(sys: Sys, repoId: int) {
    exists id :: id in sys.st.jobs && sys.st.jobs[id].repoId == repoId && WroteSince(sys, id, sys.lastSweep)
  }

  ghost predicate Invariant(c: Config, w: World, sys: Sys) {
    && Valid(w, sys.st) && Unique(sys.rows) && sys.lastSweep <= sys.now
    && forall r :: Dirty(sys, r) || Fresh(c, sys, r, SinceDay(c, sys.lastSweep))
  }

  // ---------------------------------------------------------------------------------------------
  // A delivery touches the repositories of the rows it writes
  // ---------------------------------------------------------------------------------------------

  lemma EvaluateJobIsLocal(events: Events, view: View, repoId: int, runId: int, name: string, other: int)
    requires other != repoId
    ensures SameEventsIn(events, EvaluateJob(events, view, repoId, runId, name), other)
  {
  }

  lemma {:induction false} EvaluateNamesIsLocal(
    events: Events, view: View, repoId: int, runId: int, names: seq<string>, other: int)
    requires other != repoId
    ensures SameEventsIn(events, EvaluateNames(events, view, repoId, runId, names), other)
  {
    if names != [] {
      var before := EvaluateNames(events, view, repoId, runId, names[..|names| - 1]);
      EvaluateNamesIsLocal(events, view, repoId, runId, names[..|names| - 1], other);
      EvaluateJobIsLocal(before, view, repoId, runId, names[|names| - 1], other);
    }
  }

  /** A stored job stays, in its repository. */
  ghost predicate KeepsRepos(before: Jobs, after: Jobs) {
    forall id :: id in before ==> id in after && after[id].repoId == before[id].repoId
  }

  ghost predicate Untouched(before: State, after: State, repoId: int) {
    SameJobsIn(FactsOf(before), FactsOf(after), repoId) && SameEventsIn(before.events, after.events, repoId)
  }

  lemma JobDeliveryIsLocal(settings: Settings, w: World, st: State, d: Delivery, other: int)
    requires Valid(w, st) && Consistent(w, d) && WellFormed(d) && d.JobDelivery?
    ensures var after := Handled(settings, st, d); var id := d.job.id.value;
            id in after.jobs && after.jobs[id].repoId == d.repoId.value
    ensures other != d.repoId.value ==> Untouched(st, Handled(settings, st, d), other)
    ensures KeepsRepos(st.jobs, Handled(settings, st, d).jobs)
  {
    hide EvaluateJob;
    var jobs := JobsAfterJob(st, d.repoId.value, d.job.id.value, d.job);
    if d.job.id.value in st.jobs {
      assert TrueJob(w, d.job.id.value, st.jobs[d.job.id.value]);
    }
    if other != d.repoId.value {
      EvaluateJobIsLocal(st.events, ViewOf(settings, jobs), d.repoId.value, d.job.runId, d.job.name, other);
    }
  }

  lemma RunDeliveryIsLocal(settings: Settings, w: World, st: State, d: Delivery, other: int)
    requires Valid(w, st) && Consistent(w, d) && WellFormed(d) && d.RunDelivery?
    ensures KeepsRepos(st.jobs, Handled(settings, st, d).jobs)
    ensures forall i :: i in Written(st, d) ==> i in st.jobs && st.jobs[i].repoId == d.repoId.value
    ensures other != d.repoId.value || Written(st, d) == {} ==> Untouched(st, Handled(settings, st, d), other)
  {
    var repoId, runId := d.repoId.value, d.run.id.value;
    var runs := RunsAfterRun(st.runs, repoId, runId, d.run, d.workflow);
    var known := RunWorkflowId(runs, runId);
    forall i | i in Written(st, d)
      ensures st.jobs[i].repoId == repoId
    {
      assert TrueJob(w, i, st.jobs[i]);
    }
    if known.Some? {
      if other != repoId {
        PropagationPassesOthers(settings, w, st, repoId, runId, known.value, other);
      } else if Written(st, d) == {} {
        assert forall id :: id in st.jobs && st.jobs[id].runId == runId && st.jobs[id].workflowId.None? ==>
                              id in Written(st, d);
        NothingToPropagate(settings, st, repoId, runId, known.value, other);
      }
    }
  }

  /** The repository's jobs and events are as they were after a workflow is propagated to a run's jobs. */
  ghost predicate PropagatesPast(settings: Settings, st: State, repoId: int, runId: int, workflowId: int, other: int) {
    var jobs := PropagatedJobs(st.jobs, runId, workflowId);
    var names := Names.SortedNames(ChangedNames(st.jobs, runId));
    && SameJobsIn(FactsOf(st), Facts(jobs, st.events), other)
    && SameEventsIn(st.events, EvaluateNames(st.events, ViewOf(settings, jobs), repoId, runId, names), other)
  }

  lemma PropagationPassesOthers(
    settings: Settings, w: World, st: State, repoId: int, runId: int, workflowId: int, other: int)
    requires Valid(w, st) && repoId == w.repoOf(runId) && other != repoId
    ensures PropagatesPast(settings, st, repoId, runId, workflowId, other)
  {
    hide EvaluateNames, TrueRuns, TrueProgress;
    var jobs := PropagatedJobs(st.jobs, runId, workflowId);
    var names := Names.SortedNames(ChangedNames(st.jobs, runId));
    forall id | id in st.jobs && st.jobs[id].runId == runId
      ensures st.jobs[id].repoId == repoId
    {
      assert TrueJob(w, id, st.jobs[id]);
    }
    EvaluateNamesIsLocal(st.events, ViewOf(settings, jobs), repoId, runId, names, other);
  }

  lemma NothingToPropagate(settings: Settings, st: State, repoId: int, runId: int, workflowId: int, other: int)
    requires ChangedNames(st.jobs, runId) == {}
    ensures PropagatesPast(settings, st, repoId, runId, workflowId, other)
  {
    assert Names.SortedNames(ChangedNames(st.jobs, runId)) == [];
    forall id | id in st.jobs && st.jobs[id].runId == runId && st.jobs[id].workflowId.None?
      ensures st.jobs[id].name in ChangedNames(st.jobs, runId)
    {
    }
  }

  /** A repository none of whose job rows a delivery writes keeps its jobs and its events. */
  lemma DeliveryIsLocal(settings: Settings, w: World, st: State, d: Delivery, repoId: int)
    requires Valid(w, st) && Consistent(w, d)
    ensures var after := Handled(settings, st, d);
            && KeepsRepos(st.jobs, after.jobs)
            && ((exists id :: id in Written(st, d) && id in after.jobs && after.jobs[id].repoId == repoId) ||
                Untouched(st, after, repoId))
  {
    if WellFormed(d) {
      if d.JobDelivery? {
        JobDeliveryIsLocal(settings, w, st, d, repoId);
        assert d.job.id.value in Written(st, d);
      } else {
        RunDeliveryIsLocal(settings, w, st, d, repoId);
        if repoId == d.repoId.value && Written(st, d) != {} {
          var id := Pick(Written(st, d));
          assert id in st.jobs && st.jobs[id].repoId == repoId;
        }
      }
    }
  }

  // ---------------------------------------------------------------------------------------------
  // Every run
  // ---------------------------------------------------------------------------------------------

  lemma DirtyStaysDirty(c: Config, sys: Sys, d: Delivery, started: int, repoId: int)
    requires sys.lastSweep <= started && Dirty(sys, repoId)
    requires var after := Handled(c.settings, sys.st, d);
             KeepsRepos(sys.st.jobs, after.jobs)
    ensures Dirty(Do(c, sys, Deliver(d, started)), repoId)
  {
    var after := Do(c, sys, Deliver(d, started));
    var id :| id in sys.st.jobs && sys.st.jobs[id].repoId == repoId && WroteSince(sys, id, sys.lastSweep);
    assert WroteSince(after, id, after.lastSweep);
  }

  lemma WrittenIsDirty(c: Config, sys: Sys, d: Delivery, started: int, repoId: int, id: int)
    requires sys.lastSweep <= started && id in Written(sys.st, d)
    requires var after := Handled(c.settings, sys.st, d); id in after.jobs && after.jobs[id].repoId == repoId
    ensures Dirty(Do(c, sys, Deliver(d, started)), repoId)
  {
    var after := Do(c, sys, Deliver(d, started));
    assert after.updatedAt[id] == started && WroteSince(after, id, after.lastSweep);
  }

  lemma DeliveryKeeps(c: Config, w: World, sys: Sys, d: Delivery, started: int)
    requires Invariant(c, w, sys) && Enabled(c, w, sys, Deliver(d, started))
    requires Valid(w, Handled(c.settings, sys.st, d))
    ensures Invariant(c, w, Do(c, sys, Deliver(d, started)))
  {
    var st := Handled(c.settings, sys.st, d);
    forall r
      ensures Dirty(Do(c, sys, Deliver(d, started)), r) ||
              Fresh(c, Do(c, sys, Deliver(d, started)), r, SinceDay(c, sys.lastSweep))
    {
      DeliveryIsLocal(c.settings, w, sys.st, d, r);
      if id :| id in Written(sys.st, d) && id in st.jobs && st.jobs[id].repoId == r {
        WrittenIsDirty(c, sys, d, started, r, id);
      } else if Dirty(sys, r) {
        DirtyStaysDirty(c, sys, d, started, r);
      } else {
        AggregateIsLocal(c, FactsOf(sys.st), FactsOf(st), r, SinceDay(c, sys.lastSweep));
      }
    }
  }

  lemma DirtyIsRecent(c: Config, sys: Sys, repoId: int)
    requires sys.now - sys.lastSweep <= SLACK * c.interval && Dirty(sys, repoId)
    ensures repoId in Recent(c, sys)
  {
    var id :| id in sys.st.jobs && sys.st.jobs[id].repoId == repoId && WroteSince(sys, id, sys.lastSweep);
    assert WroteSince(sys, id, sys.now - SLACK * c.interval);
  }

  lemma SinceDayIsMonotone(c: Config, a: int, b: int)
    requires a <= b
    ensures SinceDay(c, a) <= SinceDay(c, b)
  {
  }

  /** After a sweep in time every repository's window agrees with the facts, although only the recently
      active ones were recomputed. */
  lemma SweepLeavesAllFresh(c: Config, w: World, sys: Sys, rows: Rows)
    requires Invariant(c, w, sys) && Enabled(c, w, sys, Sweep(rows)) && InTime(c, sys, Sweep(rows))
    ensures forall r :: Fresh(c, Do(c, sys, Sweep(rows)), r, SinceDay(c, sys.now))
  {
    var after, since := Do(c, sys, Sweep(rows)), SinceDay(c, sys.now);
    forall r
      ensures Fresh(c, after, r, since)
    {
      if r !in Recent(c, sys) {
        var last := SinceDay(c, sys.lastSweep);
        assert Fresh(c, sys, r, last) by {
          if Dirty(sys, r) { DirtyIsRecent(c, sys, r); }
        }
        SinceDayIsMonotone(c, sys.lastSweep, sys.now);
        WindowSlides(sys.rows, r, last, since);
        AggregateSlides(c.settings, FactsOf(sys.st), c.summarize, r, last, since);
        assert Window(rows, r, since) == Window(sys.rows, r, since);
      }
    }
  }

  lemma StepKeeps(c: Config, w: World, sys: Sys, step: Step)
    requires Invariant(c, w, sys) && Enabled(c, w, sys, step) && InTime(c, sys, step)
    requires step.Deliver? ==> Valid(w, Handled(c.settings, sys.st, step.d))
    ensures Invariant(c, w, Do(c, sys, step))
  {
    match step
    case Deliver(d, started) => DeliveryKeeps(c, w, sys, d, started);
    case Sweep(rows) => SweepLeavesAllFresh(c, w, sys, rows);
    case Tick(seconds) =>
      var after := Do(c, sys, step);
      forall r
        ensures Dirty(after, r) || Fresh(c, after, r, SinceDay(c, after.lastSweep))
      {
        assert Dirty(sys, r) ==> Dirty(after, r);
        assert Fresh(c, sys, r, SinceDay(c, sys.lastSweep)) ==> Fresh(c, after, r, SinceDay(c, after.lastSweep));
      }
  }

  lemma {:induction false} InvariantAlways(c: Config, w: World, sys: Sys, run: seq<Step>)
    requires Invariant(c, w, sys) && CanRun(c, w, sys, run)
    ensures Invariant(c, w, RunAll(c, sys, run))
    decreases |run|
  {
    if run != [] {
      if run[0].Deliver? {
        HandledStaysValid(c.settings, w, sys.st, run[0].d);
      }
      StepKeeps(c, w, sys, run[0]);
      InvariantAlways(c, w, Do(c, sys, run[0]), run[1..]);
    }
  }

  lemma HandledStaysValid(settings: Settings, w: World, st: State, d: Delivery)
    requires Valid(w, st) && Consistent(w, d)
    ensures Valid(w, Handled(settings, st, d))
  {
    if WellFormed(d) {
      if d.JobDelivery? {
        JobStepFacts(w, st, d.repoId.value, d.job.id.value, d.job);
      } else if
        d.run.id.value in KnowingRuns(RunsAfterRun(st.runs, d.repoId.value, d.run.id.value, d.run, d.workflow))
      {
        RunStepKnown(settings, w, st, d.repoId.value, d.run.id.value, d.run, d.workflow);
      } else {
        RunStepUnknown(settings, w, st, d.repoId.value, d.run.id.value, d.run, d.workflow);
      }
    }
  }

  /** Starting from agreement, after every sweep of every run in time, whatever was delivered in between,
      every repository's rollup equals the full aggregate of the facts. */
  lemma RollupAgreesAfterEverySweep(c: Config, w: World, sys: Sys, run: seq<Step>, rows: Rows)
    requires Invariant(c, w, sys) && CanRun(c, w, sys, run)
    requires Enabled(c, w, RunAll(c, sys, run), Sweep(rows)) && InTime(c, RunAll(c, sys, run), Sweep(rows))
    ensures var last := RunAll(c, sys, run);
            forall r :: Window(rows, r, SinceDay(c, last.now)) == Truth(c, last.st, r, SinceDay(c, last.now))
  {
    InvariantAlways(c, w, sys, run);
    var last := RunAll(c, sys, run);
    SweepLeavesAllFresh(c, w, last, rows);
    forall r
      ensures Window(rows, r, SinceDay(c, last.now)) == Truth(c, last.st, r, SinceDay(c, last.now))
    {
      assert Fresh(c, Do(c, last, Sweep(rows)), r, SinceDay(c, last.now));
    }
  }

  /** A sweep repairs a repository that has fallen behind exactly when the repository counts as recently
      active, so a write that no sweep sees within three intervals stays unrolled until the next one. */
  lemma SweepRepairsIffRecent(c: Config, w: World, sys: Sys, rows: Rows, repoId: int)
    requires Unique(sys.rows) && Enabled(c, w, sys, Sweep(rows)) && !Fresh(c, sys, repoId, SinceDay(c, sys.now))
    ensures Fresh(c, Do(c, sys, Sweep(rows)), repoId, SinceDay(c, sys.now)) <==> repoId in Recent(c, sys)
  {
    var since := SinceDay(c, sys.now);
    assert repoId !in Recent(c, sys) ==> Window(rows, repoId, since) == Window(sys.rows, repoId, since);
  }

  /** A run whose sweeps may be late, and in which nothing is written for the repository. */
  ghost predicate CanRunQuietly(c: Config, w: World, sys: Sys, run: seq<Step>, repoId: int)
    decreases |run|
  {
    run == [] ||
    (Enabled(c, w, sys, run[0]) && Quiet(c, sys, run[0], repoId) &&
     CanRunQuietly(c, w, Do(c, sys, run[0]), run[1..], repoId))
  }

  predicate Quiet(c: Config, sys: Sys, step: Step, repoId: int) {
    step.Deliver? ==>
      var after := Do(c, sys, step).st.jobs;
      forall id :: id in Written(sys.st, step.d) && id in after ==> after[id].repoId != repoId
  }

  /** The repository's rollup, the facts behind it and its standing as inactive are as they were. */
  ghost predicate LeftAlone(c: Config, sys: Sys, t: Sys, repoId: int) {
    && Unique(sys.rows) && Unique(t.rows) && repoId !in Recent(c, t)
    && forall since :: SameAt(c, sys, t, repoId, since)
  }

  ghost predicate SameAt(c: Config, sys: Sys, t: Sys, repoId: int, since: int)
    requires Unique(sys.rows) && Unique(t.rows)
  {
    && Window(t.rows, repoId, since) == Window(sys.rows, repoId, since)
    && Truth(c, t.st, repoId, since) == Truth(c, sys.st, repoId, since)
  }

  lemma QuietDeliveryLeavesAlone(c: Config, w: World, sys: Sys, d: Delivery, started: int, repoId: int)
    requires Valid(w, sys.st) && Unique(sys.rows) && repoId !in Recent(c, sys)
    requires Enabled(c, w, sys, Deliver(d, started)) && Quiet(c, sys, Deliver(d, started), repoId)
    ensures LeftAlone(c, sys, Do(c, sys, Deliver(d, started)), repoId)
  {
    var t := Do(c, sys, Deliver(d, started));
    DeliveryIsLocal(c.settings, w, sys.st, d, repoId);
    forall since
      ensures SameAt(c, sys, t, repoId, since)
    {
      AggregateIsLocal(c, FactsOf(sys.st), FactsOf(t.st), repoId, since);
    }
    assert forall id :: id in t.st.jobs && t.st.jobs[id].repoId == repoId ==> id !in Written(sys.st, d);
    assert forall id :: id in sys.st.jobs && WroteSince(sys, id, sys.now - SLACK * c.interval) ==>
                          sys.st.jobs[id].repoId in Recent(c, sys);
  }

  lemma QuietStepLeavesAlone(c: Config, w: World, sys: Sys, step: Step, repoId: int)
    requires Valid(w, sys.st) && Unique(sys.rows) && repoId !in Recent(c, sys)
    requires Enabled(c, w, sys, step) && Quiet(c, sys, step, repoId)
    ensures LeftAlone(c, sys, Do(c, sys, step), repoId)
  {
    match step
    case Deliver(d, started) => QuietDeliveryLeavesAlone(c, w, sys, d, started, repoId);
    case Sweep(rows) =>
    case Tick(seconds) =>
      assert forall id :: id in sys.st.jobs && WroteSince(sys, id, sys.now - SLACK * c.interval) ==>
                            sys.st.jobs[id].repoId in Recent(c, sys);
  }

  /** A write that no sweep saw in time stays unrolled over every further run, however many sweeps it has,
      until the repository is written again. */
  lemma {:induction false} MissedWriteStaysMissed(c: Config, w: World, sys: Sys, run: seq<Step>, repoId: int)
    requires Valid(w, sys.st) && Unique(sys.rows) && repoId !in Recent(c, sys)
    requires CanRunQuietly(c, w, sys, run, repoId)
    ensures var t := RunAll(c, sys, run);
            && Unique(t.rows) && repoId !in Recent(c, t)
            && forall since :: Fresh(c, t, repoId, since) <==> Fresh(c, sys, repoId, since)
    decreases |run|
  {
    if run != [] {
      var next := Do(c, sys, run[0]);
      QuietStepLeavesAlone(c, w, sys, run[0], repoId);
      if run[0].Deliver? {
        HandledStaysValid(c.settings, w, sys.st, run[0].d);
      }
      MissedWriteStaysMissed(c, w, next, run[1..], repoId);
      forall since
        ensures Fresh(c, next, repoId, since) <==> Fresh(c, sys, repoId, since)
      {
        assert SameAt(c, sys, next, repoId, since);
      }
    }
  }

  // ---------------------------------------------------------------------------------------------
  // A worker that sweeps often enough
  // ---------------------------------------------------------------------------------------------

  /** Every step can happen, in whatever time. */
  ghost predicate CanHappen(c: Config, w: World, sys: Sys, run: seq<Step>)
    decreases |run|
  {
    run == [] || (Enabled(c, w, sys, run[0]) && CanHappen(c, w, Do(c, sys, run[0]), run[1..]))
  }

  /** Never do more than three intervals pass between two sweeps, `waited` having passed since the last. */
  ghost predicate Punctual(c: Config, run: seq<Step>, waited: int)
    decreases |run|
  {
    if run == [] then true
    else
      match run[0]
      case Tick(seconds) => Punctual(c, run[1..], waited + seconds)
      case Sweep(_) => waited <= 3 * c.interval && Punctual(c, run[1..], 0)
      case Deliver(_, _) => Punctual(c, run[1..], waited)
  }

  lemma {:induction false} PunctualIsInTime(c: Config, w: World, sys: Sys, run: seq<Step>)
    requires CanHappen(c, w, sys, run) && Punctual(c, run, sys.now - sys.lastSweep)
    ensures CanRun(c, w, sys, run)
    decreases |run|
  {
    if run != [] {
      PunctualIsInTime(c, w, Do(c, sys, run[0]), run[1..]);
    }
  }

  /** So if the ticks between sweeps add up to no more than three intervals, every sweep leaves every
      repository's rollup equal to the full aggregate of the facts. */
  lemma PunctualSweepsAgree(c: Config, w: World, sys: Sys, run: seq<Step>, rows: Rows)
    requires Invariant(c, w, sys) && Unique(rows) && CanHappen(c, w, sys, run + [Sweep(rows)])
    requires Punctual(c, run + [Sweep(rows)], sys.now - sys.lastSweep)
    ensures var last := RunAll(c, sys, run);
            forall r :: Window(rows, r, SinceDay(c, last.now)) == Truth(c, last.st, r, SinceDay(c, last.now))
  {
    PunctualIsInTime(c, w, sys, run + [Sweep(rows)]);
    LastStepCanRun(c, w, sys, run, Sweep(rows));
    RollupAgreesAfterEverySweep(c, w, sys, run, rows);
  }

  lemma {:induction false} LastStepCanRun(c: Config, w: World, sys: Sys, run: seq<Step>, last: Step)
    requires CanRun(c, w, sys, run + [last])
    ensures CanRun(c, w, sys, run) && Enabled(c, w, RunAll(c, sys, run), last) && InTime(c, RunAll(c, sys, run), last)
    decreases |run|
  {
    if run == [] {
      assert run + [last] == [last];
    } else {
      assert (run + [last])[0] == run[0] && (run + [last])[1..] == run[1..] + [last];
      LastStepCanRun(c, w, Do(c, sys, run[0]), run[1..], last);
    }
  }
}
