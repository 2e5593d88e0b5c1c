/**
  The numbers of the rollup and of the leaderboard, in the columns of the job rows and the evidence of the
  events they are counted from.
 */
module Tallies {
  import opened Wrappers
  import opened Merge
  import opened Detection
  import opened Handlers
  import opened Convergence
  import opened Rollup
  import opened Verdicts
  import Activity
  import Board

  /** The row completed on a day, in seconds since the epoch. */
  predicate CompletedOn(row: JobRow, day: int) {
    CompletionOf(row).Some? && day * 86400 <= CompletionOf(row).value < (day + 1) * 86400
  }

  /** The runs of one job of one workflow that completed on one day. */
  predicate RanOn(jobs: Jobs, key: StatKey, id: int) {
    && id in jobs && jobs[id].repoId == key.repoId && jobs[id].workflowId == key.workflowId
    && jobs[id].name == key.name && CompletedOn(jobs[id], key.day)
  }

  predicate JudgedAFailure(settings: Settings, row: JobRow) {
    Judged(settings, row) && !Concludes(row, "success")
  }

  /** Some event of the repository names the run in its evidence. */
  ghost predicate Named(events: Events, repoId: int, id: int) {
    exists key :: key in events && key.repoId == repoId && id in events[key].evidence.jobIds
  }

  ghost predicate Flaky(settings: Settings, facts: Facts, repoId: int, id: int) {
    id in facts.jobs && Judged(settings, facts.jobs[id]) && Named(facts.events, repoId, id)
  }

  /** The latest completion of some runs. */
  ghost predicate IsLatestOf(jobs: Jobs, latest: Option<int>, ids: set<int>) {
    && (latest.None? <==> forall id :: id in ids && id in jobs ==> CompletionOf(jobs[id]).None?)
    && (latest.Some? ==>
          && (exists id :: id in ids && id in jobs && CompletionOf(jobs[id]) == latest)
          && forall id :: id in ids && id in jobs && CompletionOf(jobs[id]).Some? ==>
               CompletionOf(jobs[id]).value <= latest.value)
  }

  lemma OpportunityIsJudged(settings: Settings, row: JobRow)
    ensures IsOpportunity(settings, row.progress) <==> Judged(settings, row)
    ensures IsFailure(settings, row) <==> JudgedAFailure(settings, row)
    ensures CompletedAtOf(row) == CompletionOf(row)
  {
  }

  lemma DayIsItsSeconds(instant: int, day: int)
    ensures DayOf(instant) == day <==> day * 86400 <= instant < (day + 1) * 86400
  {
  }

  lemma MembersRanOn(jobs: Jobs, key: StatKey)
    ensures Members(jobs, key) == set id | id in jobs && RanOn(jobs, key, id)
  {
    hide DayOf;
    forall id | id in jobs
      ensures id in Members(jobs, key) <==> RanOn(jobs, key, id)
    {
      OpportunityIsJudged(Settings(true, true), jobs[id]);
      if Finished(jobs[id]) {
        DayIsItsSeconds(CompletedAtOf(jobs[id]).value, key.day);
      }
    }
  }

  lemma ImplicatedAreNamed(events: Events, repoId: int, id: int)
    ensures id in Implicated(events, repoId) <==> Named(events, repoId, id)
  {
  }

  /** One row of the rollup: runs, judged runs, failures, runs named by events, when the last of those
      completed, and a summary of how long the runs took. */
  lemma DayInColumns(settings: Settings, facts: Facts, summarize: Summarize, key: StatKey)
    ensures var s, jobs := StatsFor(settings, facts, summarize, key), facts.jobs;
            var flaky := set id | id in jobs && RanOn(jobs, key, id) && Flaky(settings, facts, key.repoId, id);
            && s.runs == |set id | id in jobs && RanOn(jobs, key, id)|
            && s.opportunities == |set id | id in jobs && RanOn(jobs, key, id) && Judged(settings, jobs[id])|
            && s.failures == |set id | id in jobs && RanOn(jobs, key, id) && JudgedAFailure(settings, jobs[id])|
            && s.flakes == |flaky| && IsLatestOf(jobs, s.lastFlakeAt, flaky)
            && s.durations ==
               summarize(map id | id in jobs && RanOn(jobs, key, id) && HasNumber(jobs[id], StartedAt) ::
                           CompletionOf(jobs[id]).value - jobs[id].progress.cells[StartedAt].number)
  {
    hide IsOpportunity, IsFailure, Implicated, Named, LatestCompletion, Judged, CompletedOn;
    var jobs := facts.jobs;
    var ids := Members(jobs, key);
    MembersRanOn(jobs, key);
    forall id | id in jobs {
      OpportunityIsJudged(settings, jobs[id]);
    }
    forall id {
      ImplicatedAreNamed(facts.events, key.repoId, id);
    }
    assert Opportunities(settings, jobs, ids) ==
           set id | id in jobs && RanOn(jobs, key, id) && Judged(settings, jobs[id]);
    assert Failures(settings, jobs, ids) ==
           set id | id in jobs && RanOn(jobs, key, id) && JudgedAFailure(settings, jobs[id]);
    var flaky := set id | id in jobs && RanOn(jobs, key, id) && Flaky(settings, facts, key.repoId, id);
    assert Flakes(settings, facts, key.repoId, ids) == flaky;
    LatestCompletionIsTheMaximum(jobs, flaky);
    DurationsInColumns(jobs, key);
  }

  lemma DurationsInColumns(jobs: Jobs, key: StatKey)
    ensures Durations(jobs, Members(jobs, key)) ==
            map id | id in jobs && RanOn(jobs, key, id) && HasNumber(jobs[id], StartedAt) ::
              CompletionOf(jobs[id]).value - jobs[id].progress.cells[StartedAt].number
  {
    MembersRanOn(jobs, key);
  }

  /** Which rows a recompute of a repository's window leaves. */
  lemma WindowInColumns(
    settings: Settings, facts: Facts, summarize: Summarize, repoId: int, since: int, key: StatKey)
    ensures var window := Aggregate(settings, facts, summarize, repoId, since);
            && (key in window <==>
                  key.repoId == repoId && key.day >= since && exists id :: RanOn(facts.jobs, key, id))
            && (key in window ==> window[key] == StatsFor(settings, facts, summarize, key))
  {
    hide StatsFor;
    MembersRanOn(facts.jobs, key);
    forall id
      ensures id in Members(facts.jobs, key) <==> RanOn(facts.jobs, key, id)
    {
    }
    if key in Aggregate(settings, facts, summarize, repoId, since) {
      var id :| id in facts.jobs && Finished(facts.jobs[id]) && KeyOf(facts.jobs[id]) == key;
      assert id in Members(facts.jobs, key);
    }
    if id :| RanOn(facts.jobs, key, id) {
      assert id in Members(facts.jobs, key);
    }
  }

  // ---------------------------------------------------------------------------------------------
  // The leaderboard
  // ---------------------------------------------------------------------------------------------

  /** The judged runs of one job of one workflow that completed at or after an instant. */
  predicate CountsFrom(settings: Settings, jobs: Jobs, repoId: int, from: int, group: Board.Group, id: int) {
    && id in jobs && jobs[id].repoId == repoId && jobs[id].workflowId == group.workflowId && jobs[id].name == group.name
    && Judged(settings, jobs[id]) && CompletionOf(jobs[id]).Some? && CompletionOf(jobs[id]).value >= from
  }

  lemma CountedInColumns(settings: Settings, jobs: Jobs, repoId: int, from: int, group: Board.Group, id: int)
    ensures id in Board.Counted(settings, jobs, repoId, from, group) <==>
            CountsFrom(settings, jobs, repoId, from, group, id)
  {
  }

  ghost predicate BoardIsCounted(
    settings: Settings, facts: Facts, repoId: int, from: int, board: map<Board.Group, Board.Tally>, group: Board.Group)
  {
    var jobs := facts.jobs;
    && (group in board <==> exists id :: CountsFrom(settings, jobs, repoId, from, group, id))
    && (group in board ==>
          && board[group].opportunities ==
             |set id | id in jobs && CountsFrom(settings, jobs, repoId, from, group, id)|
          && board[group].failures ==
             |set id | id in jobs && CountsFrom(settings, jobs, repoId, from, group, id) &&
                       JudgedAFailure(settings, jobs[id])|
          && board[group].flakes ==
             |set id | id in jobs && CountsFrom(settings, jobs, repoId, from, group, id) &&
                       Flaky(settings, facts, repoId, id)|)
  }

  /** The board from the facts, and the board summed from days on a day's first second. */
  lemma BoardsInColumns(
    settings: Settings, facts: Facts, summarize: Summarize, repoId: int, from: int, since: int, cutoff: int,
    group: Board.Group)
    requires cutoff >= since
    ensures BoardIsCounted(settings, facts, repoId, from, Board.FromFacts(settings, facts, repoId, from), group)
    ensures BoardIsCounted(settings, facts, repoId, cutoff * 86400,
                           Board.FromRollup(Aggregate(settings, facts, summarize, repoId, since), cutoff), group)
  {
    FactsInColumns(settings, facts, repoId, from, group);
    FactsInColumns(settings, facts, repoId, cutoff * 86400, group);
    Board.RollupBoardIsTheFacts(settings, facts, summarize, repoId, since, cutoff);
    assert Board.DayStart(cutoff) == cutoff * 86400;
  }

  lemma FactsInColumns(settings: Settings, facts: Facts, repoId: int, from: int, group: Board.Group)
    ensures BoardIsCounted(settings, facts, repoId, from, Board.FromFacts(settings, facts, repoId, from), group)
  {
    hide IsOpportunity, IsFailure, Implicated, Named, Judged, Board.Counted;
    var jobs := facts.jobs;
    var ids := Board.Counted(settings, jobs, repoId, from, group);
    var counted := set id | id in jobs && CountsFrom(settings, jobs, repoId, from, group, id);
    var failed := set id | id in counted && JudgedAFailure(settings, jobs[id]);
    var flaky := set id | id in counted && Flaky(settings, facts, repoId, id);
    forall id
      ensures id in ids <==> id in counted
    {
      CountedInColumns(settings, jobs, repoId, from, group, id);
    }
    assert ids == counted;
    forall id | id in counted
      ensures id in Failures(settings, jobs, ids) <==> id in failed
      ensures id in Flakes(settings, facts, repoId, ids) <==> id in flaky
    {
      ImplicatedAreNamed(facts.events, repoId, id);
      OpportunityIsJudged(settings, jobs[id]);
    }
    assert Failures(settings, jobs, ids) == failed && Flakes(settings, facts, repoId, ids) == flaky;
    assert failed == set id | id in jobs && CountsFrom(settings, jobs, repoId, from, group, id) &&
                              JudgedAFailure(settings, jobs[id]);
    assert flaky == set id | id in jobs && CountsFrom(settings, jobs, repoId, from, group, id) &&
                             Flaky(settings, facts, repoId, id);
    GroupsAreCounted(settings, jobs, repoId, from, group);
  }

  lemma GroupsAreCounted(settings: Settings, jobs: Jobs, repoId: int, from: int, group: Board.Group)
    ensures group in Board.FactGroups(settings, jobs, repoId, from) <==>
            exists id :: CountsFrom(settings, jobs, repoId, from, group, id)
  {
    forall id
      ensures id in Board.Counted(settings, jobs, repoId, from, group) <==>
              CountsFrom(settings, jobs, repoId, from, group, id)
    {
      CountedInColumns(settings, jobs, repoId, from, group, id);
    }
    if id :| CountsFrom(settings, jobs, repoId, from, group, id) {
      assert id in Board.Counted(settings, jobs, repoId, from, group);
    }
    if group in Board.FactGroups(settings, jobs, repoId, from) {
      var id :| id in jobs && Board.Counts(settings, jobs, repoId, from, id) &&
                Board.Group(jobs[id].workflowId, jobs[id].name) == group;
      assert id in Board.Counted(settings, jobs, repoId, from, group);
    }
  }

  // ---------------------------------------------------------------------------------------------
  // The sweep
  // ---------------------------------------------------------------------------------------------

  /** The repositories swept are those of which a row was written within the last three intervals, and a
      sweep in time follows the one before within as long. */
  lemma RecentInColumns(c: Activity.Config, sys: Activity.Sys, rows: Rows, repoId: int)
    ensures repoId in Activity.Recent(c, sys) <==>
            exists id :: id in sys.st.jobs && sys.st.jobs[id].repoId == repoId &&
                         WrittenAfter(sys, id, sys.now - 3 * c.interval)
    ensures Activity.InTime(c, sys, Activity.Sweep(rows)) <==> sys.now <= sys.lastSweep + 3 * c.interval
  {
  }

  predicate WrittenAfter(sys: Activity.Sys, id: int, at: int) {
    id in sys.updatedAt && sys.updatedAt[id] >= at
  }

  /** The window recomputed begins with the day that holds the instant so many days ago. */
  lemma SweepReachesBack(c: Activity.Config, now: int)
    ensures var since := Activity.SinceDay(c, now);
            since * 86400 <= now - c.windowDays * 86400 < (since + 1) * 86400
  {
  }

  // ---------------------------------------------------------------------------------------------
  // From deliveries to flakes
  // ---------------------------------------------------------------------------------------------

  /** The row failed and was recovered, or recovered another; or is one of a commit's rows that contradict
      each other. */
  ghost predicate Implicates(settings: Settings, jobs: Jobs, key: EventKey, id: int) {
    if key.Rerun? then exists i, j :: Recovers(settings, jobs, key, i, j) && (id == i || id == j)
    else Member(settings, jobs, key, id) && exists i, j :: Contradict(settings, jobs, key, i, j)
  }

  /** After any consistent deliveries a run counts as a flake exactly when the stored rows say so. */
  lemma FlakesAreWhatTheRowsSay(settings: Settings, w: World, ds: seq<Delivery>, repoId: int, id: int)
    requires AllConsistent(w, ds)
    ensures var st := HandledAll(settings, EMPTY, ds);
            Flaky(settings, Facts(st.jobs, st.events), repoId, id) <==>
            exists key: EventKey :: key.repoId == repoId && Implicates(settings, st.jobs, key, id)
  {
    hide HandledAll, Judged, Recovers, Contradict;
    var st := HandledAll(settings, EMPTY, ds);
    forall key: EventKey
      ensures key in st.events && id in st.events[key].evidence.jobIds <==> Implicates(settings, st.jobs, key, id)
      ensures Implicates(settings, st.jobs, key, id) ==> id in st.jobs && Judged(settings, st.jobs[id])
    {
      EventsAreWhatTheRowsSay(settings, w, ds, key);
      RecoveryContradicts(settings, st.jobs, key, id);
    }
  }

  lemma RecoveryContradicts(settings: Settings, jobs: Jobs, key: EventKey, id: int)
    ensures key.Rerun? && Implicates(settings, jobs, key, id) ==> exists i, j :: Contradict(settings, jobs, key, i, j)
    ensures Implicates(settings, jobs, key, id) ==> id in jobs && Judged(settings, jobs[id])
  {
    if key.Rerun? && Implicates(settings, jobs, key, id) {
      var i, j :| Recovers(settings, jobs, key, i, j) && (id == i || id == j);
      assert Contradict(settings, jobs, key, i, j);
    }
  }
}
