/**
  The leaderboard of one repository, summed from daily rows, against the same board counted straight
  from the job rows.
 */
module Board {
  import opened Wrappers
  import opened Detection
  import opened Rollup

  /** A row of the board stands for one job of one workflow. */
  datatype Group = Group(workflowId: Option<int>, name: string)

  datatype Tally = Tally(opportunities: nat, failures: nat, flakes: nat)

  datatype Column = OpportunitiesColumn | FailuresColumn | FlakesColumn

  function Cell(stats: Stats, column: Column): nat {
    match column
    case OpportunitiesColumn => stats.opportunities
    case FailuresColumn => stats.failures
    case FlakesColumn => stats.flakes
  }

  // ---------------------------------------------------------------------------------------------
  // From the rollup
  // ---------------------------------------------------------------------------------------------

  ghost function AnyOf(keys: set<StatKey>): (key: StatKey)
    requires keys != {}
    ensures key in keys
  {
    var key :| key in keys;
    key
  }

  /** The sum of a column over daily rows. */
  ghost function Sum(window: map<StatKey, Stats>, keys: set<StatKey>, column: Column): nat
    requires keys <= window.Keys
    decreases |keys|
  {
    if keys == {} then 0
    else
      var key := AnyOf(keys);
      Cell(window[key], column) + Sum(window, keys - {key}, column)
  }

  function GroupOf(key: StatKey): Group {
    Group(key.workflowId, key.name)
  }

  function Days(window: map<StatKey, Stats>, group: Group, cutoff: int): set<StatKey> {
    set key | key in window && GroupOf(key) == group && key.day >= cutoff
  }

  function Groups(window: map<StatKey, Stats>, cutoff: int): set<Group> {
    set key | key in window && key.day >= cutoff :: GroupOf(key)
  }

  /** `flaky_jobs` before ranking: days from `cutoff` on, summed per group, groups without opportunities
      dropped. `window` holds one repository's rows. */
  ghost function FromRollup(window: map<StatKey, Stats>, cutoff: int): map<Group, Tally> {
    map group | group in Groups(window, cutoff) && Sum(window, Days(window, group, cutoff), OpportunitiesColumn) > 0 ::
      Tally(Sum(window, Days(window, group, cutoff), OpportunitiesColumn),
            Sum(window, Days(window, group, cutoff), FailuresColumn),
            Sum(window, Days(window, group, cutoff), FlakesColumn))
  }

  // ---------------------------------------------------------------------------------------------
  // From the facts
  // ---------------------------------------------------------------------------------------------

  /** The repository's eligible runs that completed at or after an instant. */
  predicate Counts(settings: Settings, jobs: map<int, JobRow>, repoId: int, from: int, id: int) {
    && id in jobs && jobs[id].repoId == repoId
    && Finished(jobs[id]) && CompletedAtOf(jobs[id]).value >= from
    && IsOpportunity(settings, jobs[id].progress)
  }

  function Counted(settings: Settings, jobs: map<int, JobRow>, repoId: int, from: int, group: Group): set<int> {
    set id | id in jobs && Counts(settings, jobs, repoId, from, id) &&
             Group(jobs[id].workflowId, jobs[id].name) == group
  }

  function FactGroups(settings: Settings, jobs: map<int, JobRow>, repoId: int, from: int): set<Group> {
    set id | id in jobs && Counts(settings, jobs, repoId, from, id) :: Group(jobs[id].workflowId, jobs[id].name)
  }

  /** `flaky_jobs_from_facts` before ranking: one count per distinct run, however many signals name it. */
  function FromFacts(settings: Settings, facts: Facts, repoId: int, from: int): map<Group, Tally> {
    map group | group in FactGroups(settings, facts.jobs, repoId, from) ::
      var ids := Counted(settings, facts.jobs, repoId, from, group);
      Tally(|ids|, |Failures(settings, facts.jobs, ids)|, |Flakes(settings, facts, repoId, ids)|)
  }

  // ---------------------------------------------------------------------------------------------
  // Agreement
  // ---------------------------------------------------------------------------------------------

  /** Everything a column counts, whatever the group and the day. */
  function Whole(settings: Settings, facts: Facts, repoId: int, column: Column): set<int> {
    match column
    case OpportunitiesColumn => Opportunities(settings, facts.jobs, facts.jobs.Keys)
    case FailuresColumn => Failures(settings, facts.jobs, facts.jobs.Keys)
    case FlakesColumn => Flakes(settings, facts, repoId, facts.jobs.Keys)
  }

  lemma CellCounts(settings: Settings, facts: Facts, summarize: Summarize, key: StatKey, column: Column)
    ensures Cell(StatsFor(settings, facts, summarize, key), column)
         == |Whole(settings, facts, key.repoId, column) * Members(facts.jobs, key)|
  {
    var ids := Members(facts.jobs, key);
    var whole := Whole(settings, facts, key.repoId, column);
    match column
    case OpportunitiesColumn =>
      assert Opportunities(settings, facts.jobs, ids) == whole * ids;
    case FailuresColumn =>
      assert Failures(settings, facts.jobs, ids) == whole * ids;
    case FlakesColumn =>
      assert Flakes(settings, facts, key.repoId, ids) == whole * ids;
  }

  function Within(jobs: map<int, JobRow>, whole: set<int>, keys: set<StatKey>): set<int> {
    set id | id in whole && id in jobs && Finished(jobs[id]) && KeyOf(jobs[id]) in keys
  }

  /** Days are disjoint and a run completes on one of them, so sums of daily counts are counts. */
  lemma {:induction false} SumCountsOnce(
    settings: Settings, facts: Facts, summarize: Summarize, repoId: int, window: map<StatKey, Stats>,
    keys: set<StatKey>, column: Column)
    requires keys <= window.Keys
    requires forall key :: key in keys ==>
               key.repoId == repoId && window[key] == StatsFor(settings, facts, summarize, key)
    ensures Sum(window, keys, column)
         == |Within(facts.jobs, Whole(settings, facts, repoId, column), keys)|
    decreases |keys|
  {
    var whole := Whole(settings, facts, repoId, column);
    if keys == {} {
      assert Within(facts.jobs, whole, keys) == {};
    } else {
      var key := AnyOf(keys);
      SumCountsOnce(settings, facts, summarize, repoId, window, keys - {key}, column);
      CellCounts(settings, facts, summarize, key, column);
      OneDayMore(facts.jobs, whole, keys, key);
    }
  }

  lemma OneDayMore(jobs: map<int, JobRow>, whole: set<int>, keys: set<StatKey>, key: StatKey)
    requires key in keys
    ensures |Within(jobs, whole, keys)| == |whole * Members(jobs, key)| + |Within(jobs, whole, keys - {key})|
  {
    var own, rest := whole * Members(jobs, key), Within(jobs, whole, keys - {key});
    assert Within(jobs, whole, keys) == own + rest;
    assert own !! rest;
  }

  function DayStart(day: int): int {
    day * SECONDS_PER_DAY
  }

  /** The days of one group hold exactly the group's runs. */
  lemma DaysHoldTheRuns(
    settings: Settings, facts: Facts, summarize: Summarize, repoId: int, since: int, cutoff: int, group: Group,
    column: Column)
    requires cutoff >= since
    ensures var window := Aggregate(settings, facts, summarize, repoId, since);
            var ids := Counted(settings, facts.jobs, repoId, DayStart(cutoff), group);
            Within(facts.jobs, Whole(settings, facts, repoId, column), Days(window, group, cutoff)) ==
              match column
              case OpportunitiesColumn => ids
              case FailuresColumn => Failures(settings, facts.jobs, ids)
              case FlakesColumn => Flakes(settings, facts, repoId, ids)
  {
    var window := Aggregate(settings, facts, summarize, repoId, since);
    var days := Days(window, group, cutoff);
    var ids := Counted(settings, facts.jobs, repoId, DayStart(cutoff), group);
    forall id | id in facts.jobs && IsOpportunity(settings, facts.jobs[id].progress)
      ensures id in ids <==> Finished(facts.jobs[id]) && KeyOf(facts.jobs[id]) in days
    {
      if Finished(facts.jobs[id]) {
        DayBegins(CompletedAtOf(facts.jobs[id]).value, cutoff);
        assert facts.jobs[id].repoId == repoId && KeyOf(facts.jobs[id]).day >= cutoff ==>
                 KeyOf(facts.jobs[id]) in window;
      }
    }
  }

  lemma DayBegins(instant: int, day: int)
    ensures DayOf(instant) >= day <==> instant >= DayStart(day)
  {
  }

  lemma SumsAreCounts(
    settings: Settings, facts: Facts, summarize: Summarize, repoId: int, since: int, cutoff: int, group: Group)
    requires cutoff >= since
    ensures var window := Aggregate(settings, facts, summarize, repoId, since);
            var days := Days(window, group, cutoff);
            var ids := Counted(settings, facts.jobs, repoId, DayStart(cutoff), group);
            && Sum(window, days, OpportunitiesColumn) == |ids|
            && Sum(window, days, FailuresColumn) == |Failures(settings, facts.jobs, ids)|
            && Sum(window, days, FlakesColumn) == |Flakes(settings, facts, repoId, ids)|
  {
    var window := Aggregate(settings, facts, summarize, repoId, since);
    var days := Days(window, group, cutoff);
    forall column: Column
      ensures Sum(window, days, column) == |Within(facts.jobs, Whole(settings, facts, repoId, column), days)|
    {
      SumCountsOnce(settings, facts, summarize, repoId, window, days, column);
    }
    DaysHoldTheRuns(settings, facts, summarize, repoId, since, cutoff, group, OpportunitiesColumn);
    DaysHoldTheRuns(settings, facts, summarize, repoId, since, cutoff, group, FailuresColumn);
    DaysHoldTheRuns(settings, facts, summarize, repoId, since, cutoff, group, FlakesColumn);
  }

  lemma GroupIsOnTheBoard(
    settings: Settings, facts: Facts, summarize: Summarize, repoId: int, since: int, cutoff: int, group: Group)
    requires cutoff >= since
    ensures group in FactGroups(settings, facts.jobs, repoId, DayStart(cutoff))
       <==> group in FromRollup(Aggregate(settings, facts, summarize, repoId, since), cutoff)
  {
    var window := Aggregate(settings, facts, summarize, repoId, since);
    var ids := Counted(settings, facts.jobs, repoId, DayStart(cutoff), group);
    SumsAreCounts(settings, facts, summarize, repoId, since, cutoff, group);
    if group in FactGroups(settings, facts.jobs, repoId, DayStart(cutoff)) {
      GroupHasADay(settings, facts, summarize, repoId, since, cutoff, group);
    }
    if ids != {} {
      var id := Pick(ids);
      assert Counts(settings, facts.jobs, repoId, DayStart(cutoff), id);
    }
  }

  lemma GroupHasADay(
    settings: Settings, facts: Facts, summarize: Summarize, repoId: int, since: int, cutoff: int, group: Group)
    requires cutoff >= since && group in FactGroups(settings, facts.jobs, repoId, DayStart(cutoff))
    ensures Counted(settings, facts.jobs, repoId, DayStart(cutoff), group) != {}
    ensures group in Groups(Aggregate(settings, facts, summarize, repoId, since), cutoff)
  {
    var id :| id in facts.jobs && Counts(settings, facts.jobs, repoId, DayStart(cutoff), id) &&
              Group(facts.jobs[id].workflowId, facts.jobs[id].name) == group;
    assert id in Counted(settings, facts.jobs, repoId, DayStart(cutoff), group);
    DayBegins(CompletedAtOf(facts.jobs[id]).value, cutoff);
    var key := KeyOf(facts.jobs[id]);
    assert key in Aggregate(settings, facts, summarize, repoId, since) && group == GroupOf(key);
  }

  lemma GroupIsCountedAlike(
    settings: Settings, facts: Facts, summarize: Summarize, repoId: int, since: int, cutoff: int, group: Group)
    requires cutoff >= since
    ensures var summed := FromRollup(Aggregate(settings, facts, summarize, repoId, since), cutoff);
            var counted := FromFacts(settings, facts, repoId, DayStart(cutoff));
            && (group in summed <==> group in counted)
            && (group in summed ==> summed[group] == counted[group])
  {
    hide Aggregate, Sum, Counted, Failures, Flakes, Groups;
    GroupIsOnTheBoard(settings, facts, summarize, repoId, since, cutoff, group);
    SumsAreCounts(settings, facts, summarize, repoId, since, cutoff, group);
  }

  /** For a cutoff inside the rolled-up window, the board read from days is the board counted from the
      job rows of those days: same groups, same opportunities, failures and flakes. */
  lemma RollupBoardIsTheFacts(
    settings: Settings, facts: Facts, summarize: Summarize, repoId: int, since: int, cutoff: int)
    requires cutoff >= since
    ensures FromRollup(Aggregate(settings, facts, summarize, repoId, since), cutoff)
         == FromFacts(settings, facts, repoId, DayStart(cutoff))
  {
    hide *;
    var summed := FromRollup(Aggregate(settings, facts, summarize, repoId, since), cutoff);
    var counted := FromFacts(settings, facts, repoId, DayStart(cutoff));
    forall group
      ensures group in summed <==> group in counted
      ensures group in summed && group in counted ==> summed[group] == counted[group]
    {
      GroupIsCountedAlike(settings, facts, summarize, repoId, since, cutoff, group);
    }
    assert summed == counted;
  }

  predicate NothingEarlierThatDay(settings: Settings, jobs: map<int, JobRow>, repoId: int, at: int) {
    forall id :: id in jobs && Counts(settings, jobs, repoId, DayStart(DayOf(at)), id) ==>
      CompletedAtOf(jobs[id]).value >= at
  }

  lemma LaterCutoffDropsNothing(settings: Settings, facts: Facts, repoId: int, at: int)
    requires NothingEarlierThatDay(settings, facts.jobs, repoId, at)
    ensures FromFacts(settings, facts, repoId, DayStart(DayOf(at))) == FromFacts(settings, facts, repoId, at)
  {
    var from := DayStart(DayOf(at));
    assert from <= at by { DayBegins(at, DayOf(at)); }
    forall id | id in facts.jobs
      ensures Counts(settings, facts.jobs, repoId, from, id) == Counts(settings, facts.jobs, repoId, at, id)
    {
    }
    SameCountsSameBoard(settings, facts, repoId, from, at);
  }

  lemma SameCountsSameBoard(settings: Settings, facts: Facts, repoId: int, from: int, at: int)
    requires forall id :: id in facts.jobs ==>
               Counts(settings, facts.jobs, repoId, from, id) == Counts(settings, facts.jobs, repoId, at, id)
    ensures FromFacts(settings, facts, repoId, from) == FromFacts(settings, facts, repoId, at)
  {
    assert FactGroups(settings, facts.jobs, repoId, from) == FactGroups(settings, facts.jobs, repoId, at);
    forall group
      ensures Counted(settings, facts.jobs, repoId, from, group) == Counted(settings, facts.jobs, repoId, at, group)
    {
    }
  }

  lemma LaterCutoffDropsARun(settings: Settings, facts: Facts, repoId: int, at: int, id: int)
    requires Counts(settings, facts.jobs, repoId, DayStart(DayOf(at)), id) && CompletedAtOf(facts.jobs[id]).value < at
    ensures FromFacts(settings, facts, repoId, DayStart(DayOf(at))) != FromFacts(settings, facts, repoId, at)
  {
    var from := DayStart(DayOf(at));
    assert from <= at by { DayBegins(at, DayOf(at)); }
    var group := Group(facts.jobs[id].workflowId, facts.jobs[id].name);
    var more := Counted(settings, facts.jobs, repoId, from, group);
    var fewer := Counted(settings, facts.jobs, repoId, at, group);
    assert id in more && id !in fewer && fewer <= more - {id};
    SubsetCount(fewer, more - {id});
    var byDay, byInstant := FromFacts(settings, facts, repoId, from), FromFacts(settings, facts, repoId, at);
    assert group in byDay && byDay[group].opportunities == |more|;
    assert group in byInstant ==> byInstant[group].opportunities == |fewer|;
  }

  /** One board cuts by day and the other by instant. For the same moment they agree exactly when no
      eligible run completed earlier on the cutoff's own day. */
  lemma BoardsAgreeIffNothingEarlierThatDay(
    settings: Settings, facts: Facts, summarize: Summarize, repoId: int, since: int, at: int)
    requires DayOf(at) >= since
    ensures FromRollup(Aggregate(settings, facts, summarize, repoId, since), DayOf(at)) ==
            FromFacts(settings, facts, repoId, at)
       <==> NothingEarlierThatDay(settings, facts.jobs, repoId, at)
  {
    RollupBoardIsTheFacts(settings, facts, summarize, repoId, since, DayOf(at));
    if NothingEarlierThatDay(settings, facts.jobs, repoId, at) {
      LaterCutoffDropsNothing(settings, facts, repoId, at);
    } else {
      var id :| id in facts.jobs && Counts(settings, facts.jobs, repoId, DayStart(DayOf(at)), id) &&
                CompletedAtOf(facts.jobs[id]).value < at;
      LaterCutoffDropsARun(settings, facts, repoId, at, id);
    }
  }
}
