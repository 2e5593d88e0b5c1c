/**
  What the signals say of the rows of the job table, in the columns of the rows: which conclusions make a
  flake, what its evidence names and when it happened.
 */
module Verdicts {
  import opened Wrappers
  import opened Merge
  import opened Detection
  import opened Signals
  import opened Handlers
  import opened Convergence
  import Order
  import Times

  // ---------------------------------------------------------------------------------------------
  // Rows
  // ---------------------------------------------------------------------------------------------

  predicate Concludes(row: JobRow, conclusion: string) {
    Conclusion in row.progress.cells && row.progress.cells[Conclusion] == Text(conclusion)
  }

  predicate HasNumber(row: JobRow, c: Column) {
    c in row.progress.cells && row.progress.cells[c].Number?
  }

  /** Only a success, a failure and, under its flag, a timeout say anything of a job; and, under its flag, not
      a failure whose runner is not known to have completed any of the planned steps. */
  predicate Judged(settings: Settings, row: JobRow) {
    && (Concludes(row, "success") || Concludes(row, "failure") ||
        (settings.timedOutIsFailure && Concludes(row, "timed_out")))
    && (settings.excludeInfraFailures && !Concludes(row, "success") && HasNumber(row, StepCount) ==>
          HasNumber(row, CompletedStepCount) && row.progress.cells[CompletedStepCount] != Number(0))
  }

  /** The rows a signal compares: one job of one run, or one job of one workflow on one commit. */
  predicate InGroup(row: JobRow, key: EventKey) {
    && row.repoId == key.repoId && row.name == key.name
    && (key.Rerun? ==> row.runId == key.runId)
    && (key.SameCommit? ==> row.workflowId == Some(key.workflowId) && row.headSha == key.headSha)
  }

  predicate Member(settings: Settings, jobs: Jobs, key: EventKey, id: int) {
    id in jobs && InGroup(jobs[id], key) && Judged(settings, jobs[id])
  }

  predicate Fails(settings: Settings, jobs: Jobs, key: EventKey, id: int) {
    Member(settings, jobs, key, id) && !Concludes(jobs[id], "success")
  }

  predicate Passes(settings: Settings, jobs: Jobs, key: EventKey, id: int) {
    Member(settings, jobs, key, id) && Concludes(jobs[id], "success")
  }

  /** Rows of one run in attempt order. */
  predicate Sooner(jobs: Jobs, i: int, j: int) {
    i in jobs && j in jobs &&
    (jobs[i].runAttempt < jobs[j].runAttempt || (jobs[i].runAttempt == jobs[j].runAttempt && i < j))
  }

  /** A failure and a success that contradict each other; of one run, in that order. */
  predicate Contradict(settings: Settings, jobs: Jobs, key: EventKey, i: int, j: int) {
    Fails(settings, jobs, key, i) && Passes(settings, jobs, key, j) && (key.Rerun? ==> Sooner(jobs, i, j))
  }

  /** A failure recovered by the next attempt that says anything. */
  ghost predicate Recovers(settings: Settings, jobs: Jobs, key: EventKey, i: int, j: int) {
    && Fails(settings, jobs, key, i) && Passes(settings, jobs, key, j) && Sooner(jobs, i, j)
    && forall k :: Member(settings, jobs, key, k) ==> !(Sooner(jobs, i, k) && Sooner(jobs, k, j))
  }

  /** The last such recovery. */
  ghost predicate RecoversAtLast(settings: Settings, jobs: Jobs, key: EventKey, i: int, j: int) {
    && Recovers(settings, jobs, key, i, j)
    && forall a, b :: Recovers(settings, jobs, key, a, b) ==> b == j || Sooner(jobs, b, j)
  }

  function CompletionOf(row: JobRow): Option<int> {
    if HasNumber(row, CompletedAt) then Some(row.progress.cells[CompletedAt].number) else None
  }

  // ---------------------------------------------------------------------------------------------
  // The group a signal sees is the group of the rows
  // ---------------------------------------------------------------------------------------------

  lemma SeenAsJudged(settings: Settings, jobs: Jobs, key: EventKey, id: int)
    ensures var group := Group(ViewOf(settings, jobs), key);
            && (id in group <==> Member(settings, jobs, key, id))
            && (id in group ==>
                  && group[id].jobId == id && group[id].repoId == jobs[id].repoId && group[id].runId == jobs[id].runId
                  && group[id].runAttempt == jobs[id].runAttempt && group[id].name == jobs[id].name
                  && group[id].headSha == jobs[id].headSha
                  && (group[id].failed <==> !Concludes(jobs[id], "success"))
                  && group[id].completedAt == CompletionOf(jobs[id]))
  {
  }

  lemma GroupIsKeyed(settings: Settings, jobs: Jobs, key: EventKey)
    ensures Keyed(ViewOf(settings, jobs).opportunities) && Keyed(Group(ViewOf(settings, jobs), key))
  {
    hide IsOpportunity;
  }

  /** A signal fires on the stored rows exactly when a row that is judged a failure is contradicted by one
      that concluded with success. */
  lemma FiresOnRows(settings: Settings, jobs: Jobs, key: EventKey)
    ensures Fires(ViewOf(settings, jobs), key) <==> exists i, j :: Contradict(settings, jobs, key, i, j)
  {
    hide ViewOf, Fires, Group;
    var view := ViewOf(settings, jobs);
    GroupIsKeyed(settings, jobs, key);
    FiresIff(view, key);
    forall i, j
      ensures Witness(Group(view, key), key.Rerun?, i, j) <==> Contradict(settings, jobs, key, i, j)
    {
      SeenAsJudged(settings, jobs, key, i);
      SeenAsJudged(settings, jobs, key, j);
    }
  }

  // ---------------------------------------------------------------------------------------------
  // Signal A: evidence and time
  // ---------------------------------------------------------------------------------------------

  ghost function Listed(settings: Settings, jobs: Jobs, key: EventKey): seq<Opportunity> {
    Ordered(Group(ViewOf(settings, jobs), key))
  }

  /** The list the signal walks is the judged rows of the group, each once, in order. */
  lemma ListIsTheMembers(settings: Settings, jobs: Jobs, key: EventKey)
    ensures InQueryOrder(Listed(settings, jobs, key))
    ensures forall id :: Member(settings, jobs, key, id) <==> exists p :: IsAt(settings, jobs, key, p, id)
    ensures forall p :: 0 <= p < |Listed(settings, jobs, key)| ==>
              IsAt(settings, jobs, key, p, Listed(settings, jobs, key)[p].jobId)
  {
    hide ViewOf, Group, Ordered, InQueryOrder;
    var group := Group(ViewOf(settings, jobs), key);
    GroupIsKeyed(settings, jobs, key);
    OrderedHasTheGroup(group);
    OrderedIsSorted(group);
    var runs := Listed(settings, jobs, key);
    forall p | 0 <= p < |runs|
      ensures IsAt(settings, jobs, key, p, runs[p].jobId)
    {
      assert runs[p] in runs;
      SeenAsJudged(settings, jobs, key, runs[p].jobId);
    }
    forall id | Member(settings, jobs, key, id)
      ensures exists p :: IsAt(settings, jobs, key, p, id)
    {
      SeenAsJudged(settings, jobs, key, id);
      assert group[id] in runs;
      var p :| 0 <= p < |runs| && runs[p] == group[id];
      assert IsAt(settings, jobs, key, p, id);
    }
  }

  /** The row stands at this place of the list. */
  ghost predicate IsAt(settings: Settings, jobs: Jobs, key: EventKey, p: int, id: int) {
    var runs := Listed(settings, jobs, key);
    && 0 <= p < |runs| && Member(settings, jobs, key, id)
    && runs[p].jobId == id && runs[p].runId == jobs[id].runId && runs[p].runAttempt == jobs[id].runAttempt
    && runs[p].headSha == jobs[id].headSha && (runs[p].failed <==> !Concludes(jobs[id], "success"))
    && runs[p].completedAt == CompletionOf(jobs[id])
  }

  lemma PlacesInOrder(settings: Settings, jobs: Jobs, key: EventKey, p: int, i: int, q: int, j: int)
    requires key.Rerun? && InQueryOrder(Listed(settings, jobs, key))
    requires IsAt(settings, jobs, key, p, i) && IsAt(settings, jobs, key, q, j)
    ensures Sooner(jobs, i, j) <==> p < q
  {
    hide Ordered, Group, ViewOf, Judged;
    var runs := Listed(settings, jobs, key);
    if p < q {
      assert Precedes(runs[p], runs[q]);
    } else if q < p {
      assert Precedes(runs[q], runs[p]);
    }
  }

  lemma NeighboursRecover(settings: Settings, jobs: Jobs, key: EventKey, p: int)
    requires key.Rerun? && 0 <= p < |Listed(settings, jobs, key)| - 1
    requires Listed(settings, jobs, key)[p].failed && !Listed(settings, jobs, key)[p + 1].failed
    ensures var runs := Listed(settings, jobs, key); Recovers(settings, jobs, key, runs[p].jobId, runs[p + 1].jobId)
  {
    hide Listed, InQueryOrder, InGroup, Judged;
    var runs := Listed(settings, jobs, key);
    var i, j := runs[p].jobId, runs[p + 1].jobId;
    ListIsTheMembers(settings, jobs, key);
    PlacesInOrder(settings, jobs, key, p, i, p + 1, j);
    forall k | Member(settings, jobs, key, k)
      ensures !(Sooner(jobs, i, k) && Sooner(jobs, k, j))
    {
      var q :| IsAt(settings, jobs, key, q, k);
      PlacesInOrder(settings, jobs, key, p, i, q, k);
      PlacesInOrder(settings, jobs, key, q, k, p + 1, j);
    }
  }

  lemma RecoveryIsNeighbours(settings: Settings, jobs: Jobs, key: EventKey, i: int, j: int) returns (p: int)
    requires key.Rerun? && Recovers(settings, jobs, key, i, j)
    ensures IsAt(settings, jobs, key, p, i) && IsAt(settings, jobs, key, p + 1, j)
  {
    hide Listed, InQueryOrder, InGroup, Judged, Sooner;
    ListIsTheMembers(settings, jobs, key);
    p :| IsAt(settings, jobs, key, p, i);
    var q :| IsAt(settings, jobs, key, q, j);
    PlacesInOrder(settings, jobs, key, p, i, q, j);
    if p + 1 < q {
      var between := Listed(settings, jobs, key)[p + 1].jobId;
      PlacesInOrder(settings, jobs, key, p, i, p + 1, between);
      PlacesInOrder(settings, jobs, key, p + 1, between, q, j);
    }
  }

  /** The event of Signal A happened when the last recovering attempt completed, and its evidence names the
      commit of that attempt. */
  lemma RerunHappenedAt(settings: Settings, jobs: Jobs, key: EventKey) returns (i: int, j: int)
    requires key.Rerun? && Fires(ViewOf(settings, jobs), key)
    ensures RecoversAtLast(settings, jobs, key, i, j)
    ensures var event := EventFor(ViewOf(settings, jobs), key);
            && event.occurredAt == CompletionOf(jobs[j])
            && event.evidence.RerunEvidence? && event.evidence.headSha == jobs[j].headSha
  {
    hide ViewOf, Group, Ordered, Recoveries, InQueryOrder, IsAt, Sooner, Member;
    var runs := Listed(settings, jobs, key);
    var p := Times.LastRecoveryAt(runs);
    i, j := runs[p].jobId, runs[p + 1].jobId;
    ListIsTheMembers(settings, jobs, key);
    NeighboursRecover(settings, jobs, key, p);
    PlaceSays(settings, jobs, key, p + 1, j);
    forall a, b | Recovers(settings, jobs, key, a, b)
      ensures b == j || Sooner(jobs, b, j)
    {
      EndsByTheLast(settings, jobs, key, p, a, b);
    }
  }

  lemma PlaceSays(settings: Settings, jobs: Jobs, key: EventKey, p: int, id: int)
    requires IsAt(settings, jobs, key, p, id)
    ensures var runs := Listed(settings, jobs, key);
            && 0 <= p < |runs| && id in jobs && runs[p].jobId == id
            && runs[p].headSha == jobs[id].headSha && runs[p].completedAt == CompletionOf(jobs[id])
            && runs[p].runAttempt == jobs[id].runAttempt && (runs[p].failed <==> !Concludes(jobs[id], "success"))
  {
  }

  lemma EndsByTheLast(settings: Settings, jobs: Jobs, key: EventKey, p: int, a: int, b: int)
    requires key.Rerun? && Times.RecoversLast(Listed(settings, jobs, key), p)
    requires Recovers(settings, jobs, key, a, b)
    ensures var j := Listed(settings, jobs, key)[p + 1].jobId; b == j || Sooner(jobs, b, j)
  {
    hide Listed, InQueryOrder, Sooner, IsAt;
    var runs := Listed(settings, jobs, key);
    var q := RecoveryIsNeighbours(settings, jobs, key, a, b);
    ListIsTheMembers(settings, jobs, key);
    PlaceSays(settings, jobs, key, q, a);
    PlaceSays(settings, jobs, key, q + 1, b);
    PlacesInOrder(settings, jobs, key, q + 1, b, p + 1, runs[p + 1].jobId);
  }

  /** Its evidence names exactly the failed and the recovering attempts, and lists every judged attempt. */
  lemma RerunNames(settings: Settings, jobs: Jobs, key: EventKey, id: int)
    requires key.Rerun? && Fires(ViewOf(settings, jobs), key)
    ensures var evidence := EventFor(ViewOf(settings, jobs), key).evidence;
            && (id in evidence.jobIds <==>
                  exists i, j :: Recovers(settings, jobs, key, i, j) && (id == i || id == j))
            && (Member(settings, jobs, key, id) <==> exists p :: ListedAs(evidence, p, jobs, id))
  {
    hide ViewOf, Group, Ordered, Recoveries, InQueryOrder, Sooner, Member, IsAt;
    var runs := Listed(settings, jobs, key);
    var evidence := EventFor(ViewOf(settings, jobs), key).evidence;
    RerunEvidenceNamesThePairs(runs, id);
    ListIsTheMembers(settings, jobs, key);
    if id in evidence.jobIds {
      var p :| 0 <= p < |runs| - 1 && runs[p].failed && !runs[p + 1].failed &&
               (runs[p].jobId == id || runs[p + 1].jobId == id);
      NeighboursRecover(settings, jobs, key, p);
    }
    if i, j :| Recovers(settings, jobs, key, i, j) && (id == i || id == j) {
      var p := RecoveryIsNeighbours(settings, jobs, key, i, j);
      PlaceSays(settings, jobs, key, p, i);
      PlaceSays(settings, jobs, key, p + 1, j);
    }
    EveryoneIsListed(settings, jobs, key, id);
  }

  ghost predicate ListedAs(evidence: Evidence, p: int, jobs: Jobs, id: int) {
    && evidence.RerunEvidence? && 0 <= p < |evidence.attempts| && id in jobs
    && evidence.attempts[p] == (jobs[id].runAttempt, id, !Concludes(jobs[id], "success"))
  }

  lemma EveryoneIsListed(settings: Settings, jobs: Jobs, key: EventKey, id: int)
    requires key.Rerun? && Fires(ViewOf(settings, jobs), key)
    ensures var evidence := EventFor(ViewOf(settings, jobs), key).evidence;
            Member(settings, jobs, key, id) <==> exists p :: ListedAs(evidence, p, jobs, id)
  {
    hide ViewOf, Group, Ordered, Recoveries, InQueryOrder, Member, IsAt, SortedIds;
    var runs := Listed(settings, jobs, key);
    var evidence := EventFor(ViewOf(settings, jobs), key).evidence;
    ListIsTheMembers(settings, jobs, key);
    if Member(settings, jobs, key, id) {
      var p :| IsAt(settings, jobs, key, p, id);
      PlaceSays(settings, jobs, key, p, id);
      assert ListedAs(evidence, p, jobs, id);
    }
    if p :| ListedAs(evidence, p, jobs, id) {
      assert runs[p].jobId == id;
      PlaceIsAMembers(settings, jobs, key, p, id);
    }
  }

  lemma PlaceIsAMembers(settings: Settings, jobs: Jobs, key: EventKey, p: int, id: int)
    requires IsAt(settings, jobs, key, p, id)
    ensures Member(settings, jobs, key, id)
  {
  }

  ghost predicate RecoversAs(settings: Settings, jobs: Jobs, key: EventKey, i: int, j: int, a: int, b: int) {
    Recovers(settings, jobs, key, i, j) && a == jobs[i].runAttempt && b == jobs[j].runAttempt
  }

  /** The pairs it lists are the attempts of the recoveries. */
  lemma RerunPairs(settings: Settings, jobs: Jobs, key: EventKey, a: int, b: int)
    requires key.Rerun? && Fires(ViewOf(settings, jobs), key)
    ensures (a, b) in EventFor(ViewOf(settings, jobs), key).evidence.recoveries <==>
            exists i, j :: RecoversAs(settings, jobs, key, i, j, a, b)
  {
    hide ViewOf, Group, Ordered, Recoveries, InQueryOrder, Sooner, Member, IsAt, SortedIds;
    var runs := Listed(settings, jobs, key);
    var pairs, recoveries := Recoveries(runs), EventFor(ViewOf(settings, jobs), key).evidence.recoveries;
    ListIsTheMembers(settings, jobs, key);
    if (a, b) in recoveries {
      var n :| 0 <= n < |recoveries| && recoveries[n] == (a, b);
      assert pairs[n] in pairs;
      RecoveriesAreNeighbours(runs, pairs[n].0, pairs[n].1);
      var p :| 0 <= p < |runs| - 1 && runs[p] == pairs[n].0 && runs[p + 1] == pairs[n].1 &&
               runs[p].failed && !runs[p + 1].failed;
      NeighboursRecover(settings, jobs, key, p);
      PlaceSays(settings, jobs, key, p, runs[p].jobId);
      PlaceSays(settings, jobs, key, p + 1, runs[p + 1].jobId);
      assert RecoversAs(settings, jobs, key, runs[p].jobId, runs[p + 1].jobId, a, b);
    }
    if i, j :| RecoversAs(settings, jobs, key, i, j, a, b) {
      var p := RecoveryIsNeighbours(settings, jobs, key, i, j);
      PlaceSays(settings, jobs, key, p, i);
      PlaceSays(settings, jobs, key, p + 1, j);
      RecoveriesAreNeighbours(runs, runs[p], runs[p + 1]);
      var n :| 0 <= n < |pairs| && pairs[n] == (runs[p], runs[p + 1]);
      assert recoveries[n] == (a, b);
    }
  }

  // ---------------------------------------------------------------------------------------------
  // Signal B: evidence and time
  // ---------------------------------------------------------------------------------------------

  /** The event of Signal B happened at the latest known completion of the commit's judged rows, and its
      evidence names all of them. */
  lemma CommitHappenedAt(settings: Settings, jobs: Jobs, key: EventKey)
    requires key.SameCommit? && Fires(ViewOf(settings, jobs), key)
    ensures var event := EventFor(ViewOf(settings, jobs), key);
            && (forall id :: id in event.evidence.jobIds <==> Member(settings, jobs, key, id))
            && (event.occurredAt.None? <==>
                  forall id :: Member(settings, jobs, key, id) ==> CompletionOf(jobs[id]).None?)
            && (event.occurredAt.Some? ==>
                  && (exists id :: Member(settings, jobs, key, id) && CompletionOf(jobs[id]) == event.occurredAt)
                  && forall id :: Member(settings, jobs, key, id) && CompletionOf(jobs[id]).Some? ==>
                       CompletionOf(jobs[id]).value <= event.occurredAt.value)
  {
    hide ViewOf, Group, Ordered, Fires, InQueryOrder, IsAt, Member;
    var view, runs := ViewOf(settings, jobs), Listed(settings, jobs, key);
    GroupIsKeyed(settings, jobs, key);
    CommitEvidenceNamesTheGroup(view, key);
    forall id {
      SeenAsJudged(settings, jobs, key, id);
    }
    LatestTimeIff(runs);
    OrderedHasTheGroup(Group(view, key));
    ListIsTheMembers(settings, jobs, key);
    forall id | Member(settings, jobs, key, id)
      ensures Group(view, key)[id] in runs
    {
    }
    if LatestTime(runs).Some? {
      var o :| o in runs && o.completedAt == LatestTime(runs);
      assert Member(settings, jobs, key, o.jobId);
    }
  }

  ghost predicate CommitListedAs(evidence: Evidence, p: int, jobs: Jobs, id: int) {
    && evidence.CommitEvidence? && 0 <= p < |evidence.jobRuns| && id in jobs
    && evidence.jobRuns[p] == (jobs[id].runId, jobs[id].runAttempt, id, !Concludes(jobs[id], "success"))
  }

  /** It lists every judged row of the commit and counts their runs. */
  lemma CommitLists(settings: Settings, jobs: Jobs, key: EventKey, id: int)
    requires key.SameCommit? && Fires(ViewOf(settings, jobs), key)
    ensures var evidence := EventFor(ViewOf(settings, jobs), key).evidence;
            && (Member(settings, jobs, key, id) <==> exists p :: CommitListedAs(evidence, p, jobs, id))
            && evidence.runs == |set i | i in jobs && Member(settings, jobs, key, i) :: jobs[i].runId|
  {
    hide ViewOf, Group, Ordered, Fires, InQueryOrder, IsAt, Member;
    var view, runs := ViewOf(settings, jobs), Listed(settings, jobs, key);
    var evidence := EventFor(view, key).evidence;
    ListIsTheMembers(settings, jobs, key);
    if Member(settings, jobs, key, id) {
      var p :| IsAt(settings, jobs, key, p, id);
      PlaceSaysRun(settings, jobs, key, p, id);
      assert CommitListedAs(evidence, p, jobs, id);
    }
    if p :| CommitListedAs(evidence, p, jobs, id) {
      assert runs[p].jobId == id;
      PlaceIsAMembers(settings, jobs, key, p, id);
    }
    GroupIsKeyed(settings, jobs, key);
    CommitEvidenceNamesTheGroup(view, key);
    forall i {
      SeenAsJudged(settings, jobs, key, i);
    }
    MembersAreInJobs(settings, jobs, key);
    var counted := set i | i in jobs && Member(settings, jobs, key, i) :: jobs[i].runId;
    assert counted == set i | i in Group(view, key) :: Group(view, key)[i].runId;
  }

  lemma MembersAreInJobs(settings: Settings, jobs: Jobs, key: EventKey)
    ensures forall i :: Member(settings, jobs, key, i) ==> i in jobs
  {
  }

  lemma PlaceSaysRun(settings: Settings, jobs: Jobs, key: EventKey, p: int, id: int)
    requires IsAt(settings, jobs, key, p, id)
    ensures var runs := Listed(settings, jobs, key);
            && 0 <= p < |runs| && id in jobs && runs[p].jobId == id && runs[p].runId == jobs[id].runId
            && runs[p].runAttempt == jobs[id].runAttempt && (runs[p].failed <==> !Concludes(jobs[id], "success"))
  {
  }

  // ---------------------------------------------------------------------------------------------
  // Which groups an evaluation looks at
  // ---------------------------------------------------------------------------------------------

  predicate KnowsWorkflow(row: JobRow) {
    row.workflowId.Some? && row.workflowId != Some(0)
  }

  /** The earliest judged attempt of the run whose workflow is known; zero does not count as known. */
  ghost predicate IsFirstKnown(settings: Settings, jobs: Jobs, key: EventKey, i: int) {
    && Member(settings, jobs, key, i) && KnowsWorkflow(jobs[i])
    && forall k :: Member(settings, jobs, key, k) && Sooner(jobs, k, i) ==> !KnowsWorkflow(jobs[k])
  }

  ghost predicate IsLast(settings: Settings, jobs: Jobs, key: EventKey, j: int) {
    Member(settings, jobs, key, j) && forall k :: Member(settings, jobs, key, k) ==> k == j || Sooner(jobs, k, j)
  }

  /** The job of the run, and the job of its workflow on the commit of its last judged attempt. */
  ghost predicate LooksAt(settings: Settings, jobs: Jobs, run: EventKey, key: EventKey) {
    || key == run
    || (key.SameCommit? && key.repoId == run.repoId && key.name == run.name &&
        exists i, j :: IsFirstKnown(settings, jobs, run, i) && IsLast(settings, jobs, run, j) &&
                       Some(key.workflowId) == jobs[i].workflowId && key.headSha == jobs[j].headSha)
  }

  /** The place of the first attempt whose workflow is known, or the length of the list. */
  ghost predicate IsFirstPlace(attempts: seq<Opportunity>, workflows: map<int, int>, p: int) {
    && 0 <= p <= |attempts|
    && (forall q :: 0 <= q < p ==> attempts[q].jobId !in workflows || workflows[attempts[q].jobId] == 0)
    && (p < |attempts| ==> attempts[p].jobId in workflows && workflows[attempts[p].jobId] != 0)
  }

  lemma {:induction false} FirstWorkflowAt(attempts: seq<Opportunity>, workflows: map<int, int>) returns (p: int)
    ensures IsFirstPlace(attempts, workflows, p)
    ensures FirstWorkflow(attempts, workflows) ==
            if p < |attempts| then Some(workflows[attempts[p].jobId]) else None
  {
    if attempts == [] || (attempts[0].jobId in workflows && workflows[attempts[0].jobId] != 0) {
      p := 0;
    } else {
      var q := FirstWorkflowAt(attempts[1..], workflows);
      p := q + 1;
    }
  }

  lemma WorkflowsAreTheRows(settings: Settings, jobs: Jobs, id: int)
    ensures var workflows := ViewOf(settings, jobs).workflows;
            (id in workflows && workflows[id] != 0 <==> id in jobs && KnowsWorkflow(jobs[id])) &&
            (id in workflows ==> id in jobs && jobs[id].workflowId == Some(workflows[id]))
  {
    hide IsOpportunity, OpportunityOf;
  }

  lemma FirstKnownIsFirst(settings: Settings, jobs: Jobs, run: EventKey, p: int, i: int)
    requires run.Rerun? && IsFirstPlace(Listed(settings, jobs, run), ViewOf(settings, jobs).workflows, p)
    ensures IsFirstKnown(settings, jobs, run, i) <==> IsAt(settings, jobs, run, p, i)
  {
    hide Listed, ViewOf, InQueryOrder, Judged, InGroup, Member;
    var runs := Listed(settings, jobs, run);
    ListIsTheMembers(settings, jobs, run);
    forall id {
      WorkflowsAreTheRows(settings, jobs, id);
    }
    if IsAt(settings, jobs, run, p, i) {
      PlaceIsAMembers(settings, jobs, run, p, i);
      PlaceSays(settings, jobs, run, p, i);
      forall k | Member(settings, jobs, run, k) && Sooner(jobs, k, i)
        ensures !KnowsWorkflow(jobs[k])
      {
        var q :| IsAt(settings, jobs, run, q, k);
        PlacesInOrder(settings, jobs, run, q, k, p, i);
        PlaceSays(settings, jobs, run, q, k);
      }
    }
    if IsFirstKnown(settings, jobs, run, i) {
      var q :| IsAt(settings, jobs, run, q, i);
      PlaceSays(settings, jobs, run, q, i);
      if p < q {
        var k := runs[p].jobId;
        PlacesInOrder(settings, jobs, run, p, k, q, i);
        PlaceIsAMembers(settings, jobs, run, p, k);
      }
    }
  }

  lemma LastIsLast(settings: Settings, jobs: Jobs, run: EventKey, j: int)
    requires run.Rerun?
    ensures IsLast(settings, jobs, run, j) <==> IsAt(settings, jobs, run, |Listed(settings, jobs, run)| - 1, j)
  {
    hide Listed, InQueryOrder, Judged, InGroup, Sooner, Member;
    var last := |Listed(settings, jobs, run)| - 1;
    ListIsTheMembers(settings, jobs, run);
    if IsAt(settings, jobs, run, last, j) {
      PlaceIsAMembers(settings, jobs, run, last, j);
      forall k | Member(settings, jobs, run, k)
        ensures k == j || Sooner(jobs, k, j)
      {
        var q :| IsAt(settings, jobs, run, q, k);
        PlaceSays(settings, jobs, run, q, k);
        PlaceSays(settings, jobs, run, last, j);
        PlacesInOrder(settings, jobs, run, q, k, last, j);
      }
    }
    if IsLast(settings, jobs, run, j) {
      var q :| IsAt(settings, jobs, run, q, j);
      PlaceSays(settings, jobs, run, q, j);
      var k := Listed(settings, jobs, run)[last].jobId;
      PlaceSays(settings, jobs, run, last, k);
      PlaceIsAMembers(settings, jobs, run, last, k);
      PlacesInOrder(settings, jobs, run, last, k, q, j);
    }
  }

  /** An evaluation looks at these groups and no other, whatever the rows hold. */
  lemma EvaluatedGroups(settings: Settings, jobs: Jobs, repoId: int, runId: int, name: string, key: EventKey)
    ensures key in Evaluated(ViewOf(settings, jobs), repoId, runId, name) <==>
            LooksAt(settings, jobs, Rerun(repoId, runId, name), key)
  {
    hide Ordered, ViewOf, IsFirstKnown, IsLast, IsAt, FirstWorkflow;
    var run := Rerun(repoId, runId, name);
    var view, runs := ViewOf(settings, jobs), Listed(settings, jobs, run);
    var p := FirstWorkflowAt(runs, view.workflows);
    ListIsTheMembers(settings, jobs, run);
    forall i
      ensures IsFirstKnown(settings, jobs, run, i) <==> IsAt(settings, jobs, run, p, i)
      ensures IsLast(settings, jobs, run, i) <==> IsAt(settings, jobs, run, |runs| - 1, i)
    {
      FirstKnownIsFirst(settings, jobs, run, p, i);
      LastIsLast(settings, jobs, run, i);
    }
    if p < |runs| {
      WorkflowsAreTheRows(settings, jobs, runs[p].jobId);
      PlaceSays(settings, jobs, run, p, runs[p].jobId);
      PlaceSays(settings, jobs, run, |runs| - 1, runs[|runs| - 1].jobId);
    }
    forall i, q | IsAt(settings, jobs, run, q, i) {
      PlaceSays(settings, jobs, run, q, i);
    }
  }

  /** The event as an evaluation leaves it: fresh evidence, and a known time never lost. */
  ghost predicate Recorded(before: Events, after: Events, key: EventKey, event: FlakeEvent) {
    && key in after && after[key].evidence == event.evidence
    && (event.occurredAt.Some? ==> after[key].occurredAt == event.occurredAt)
    && (event.occurredAt.None? ==> after[key].occurredAt == if key in before then before[key].occurredAt else None)
  }

  /** Evaluating a job name records an event exactly for those groups it looks at whose rows contradict each
      other; every other event, present or absent, stays as it was. No row needs to be consistent. */
  lemma EvaluationOnRows(
    settings: Settings, jobs: Jobs, events: Events, repoId: int, runId: int, name: string, key: EventKey)
    ensures var after := EvaluateJob(events, ViewOf(settings, jobs), repoId, runId, name);
            if LooksAt(settings, jobs, Rerun(repoId, runId, name), key) &&
               exists i, j :: Contradict(settings, jobs, key, i, j)
            then
              && Fires(ViewOf(settings, jobs), key)
              && Recorded(events, after, key, EventFor(ViewOf(settings, jobs), key))
            else (key in after <==> key in events) && (key in events ==> after[key] == events[key])
  {
    hide ViewOf, LooksAt, Contradict, Ordered, Recoveries, FirstWorkflow;
    EvaluatedGroups(settings, jobs, repoId, runId, name, key);
    FiresOnRows(settings, jobs, key);
    EvaluationRecords(events, ViewOf(settings, jobs), repoId, runId, name, key);
  }

  lemma EvaluationRecords(events: Events, view: View, repoId: int, runId: int, name: string, key: EventKey)
    ensures var after := EvaluateJob(events, view, repoId, runId, name);
            if key in Evaluated(view, repoId, runId, name) && Fires(view, key)
            then Recorded(events, after, key, EventFor(view, key))
            else (key in after <==> key in events) && (key in events ==> after[key] == events[key])
  {
    hide Ordered, Recoveries, FirstWorkflow;
  }

  // ---------------------------------------------------------------------------------------------
  // Reachable states
  // ---------------------------------------------------------------------------------------------

  /** In every reachable state an event is there exactly when the stored rows contradict each other, and its
      evidence names exactly the rows that do. */
  lemma EventsAreWhatTheRowsSay(settings: Settings, w: World, ds: seq<Delivery>, key: EventKey)
    requires AllConsistent(w, ds)
    ensures var st := HandledAll(settings, EMPTY, ds);
            && (key in st.events <==> exists i, j :: Contradict(settings, st.jobs, key, i, j))
            && (key in st.events ==> forall id :: id in st.events[key].evidence.jobIds <==>
                  if key.Rerun? then
                    exists i, j :: Recovers(settings, st.jobs, key, i, j) && (id == i || id == j)
                  else Member(settings, st.jobs, key, id))
  {
    hide HandledAll, ViewOf, Fires, EventFor, Contradict, Recovers, Member;
    var st := HandledAll(settings, EMPTY, ds);
    EventsAreDerivedAlways(settings, w, ds);
    FiresOnRows(settings, st.jobs, key);
    if key in st.events {
      if key.Rerun? {
        forall id {
          RerunNames(settings, st.jobs, key, id);
        }
      } else {
        CommitHappenedAt(settings, st.jobs, key);
      }
    }
  }

  // ---------------------------------------------------------------------------------------------
  // A re-run that recovers, from its two deliveries
  // ---------------------------------------------------------------------------------------------

  /** Two attempts of one job have completed, the first with a failure and a later one with success. */
  ghost predicate FailsThenSucceeds(first: JobBody, second: JobBody) {
    && first.runId == second.runId && first.name == second.name && first.headSha == second.headSha
    && first.id.Some? && second.id.Some? && first.id != second.id && first.id != Some(0) && second.id != Some(0)
    && first.runAttempt.Some? && second.runAttempt.Some? && 0 < first.runAttempt.value < second.runAttempt.value
    && first.status == Some("completed") && second.status == Some("completed")
    && first.conclusion == Some("failure") && second.conclusion == Some("success") && first.steps == []
  }

  ghost function Delivered(repoId: int, installationId: int, job: JobBody): Delivery {
    JobDelivery(Some(repoId), Some(installationId), job)
  }

  ghost function WorldOf(repoId: int, first: JobBody, second: JobBody): World
    requires FailsThenSucceeds(first, second)
  {
    World(_ => repoId, _ => first.headSha, _ => 1,
          i => JobIdentity(first.runId, if first.id == Some(i) then first.runAttempt.value else second.runAttempt.value,
                           first.name),
          i => JobPayload(if first.id == Some(i) then first else second))
  }

  lemma ThereIsAWorld(repoId: int, installationId: int, first: JobBody, second: JobBody)
    requires repoId != 0 && FailsThenSucceeds(first, second)
    ensures AllConsistent(WorldOf(repoId, first, second),
                          [Delivered(repoId, installationId, first), Delivered(repoId, installationId, second)])
  {
    StatusIsTheBodys(first);
    StatusIsTheBodys(second);
  }

  lemma StatusIsTheBodys(job: JobBody)
    ensures JobPayload(job).status == job.status
  {
    JobPayloadIsTheBody(job, Conclusion);
  }

  /** What the first delivery of a completed job leaves in the columns a signal looks at. */
  lemma RowOfDelivery(settings: Settings, st: State, repoId: int, installationId: int, job: JobBody)
    requires repoId != 0 && job.id.Some? && job.id != Some(0) && job.id.value !in st.jobs
    requires job.runAttempt.Some? && job.runAttempt != Some(0)
    ensures var after, id := Handled(settings, st, Delivered(repoId, installationId, job)).jobs, job.id.value;
            && after.Keys == st.jobs.Keys + {id} && (forall i :: i in st.jobs ==> after[i] == st.jobs[i])
            && after[id].repoId == repoId && after[id].runId == job.runId && after[id].name == job.name
            && after[id].runAttempt == job.runAttempt.value && after[id].headSha == job.headSha
            && (job.conclusion.Some? ==> Concludes(after[id], job.conclusion.value))
            && (job.steps == [] ==> !HasNumber(after[id], StepCount))
            && CompletionOf(after[id]) == job.completedAt
  {
    hide Handled;
    var d := Delivered(repoId, installationId, job);
    var id := job.id.value;
    JobDeliveryWrites(settings, st, d);
    var after := Handled(settings, st, d).jobs;
    ColumnIsWritten(None, after[id].progress, job.status, c => JobField(job, c), Conclusion);
    ColumnIsWritten(None, after[id].progress, job.status, c => JobField(job, c), StepCount);
    ColumnIsWritten(None, after[id].progress, job.status, c => JobField(job, c), CompletedAt);
  }

  /** However the two deliveries are ordered and repeated, the flake is recorded and names both attempts. */
  lemma RecoveredRerunIsRecorded(
    settings: Settings, repoId: int, installationId: int, first: JobBody, second: JobBody, es: seq<Delivery>)
    requires repoId != 0 && FailsThenSucceeds(first, second)
    requires var ds := [Delivered(repoId, installationId, first), Delivered(repoId, installationId, second)];
             Elements(es) == Elements(ds)
    ensures var key := Rerun(repoId, first.runId, first.name);
            var events := HandledAll(settings, EMPTY, es).events;
            && key in events
            && forall id :: id in events[key].evidence.jobIds <==> id == first.id.value || id == second.id.value
  {
    hide HandledAll, JobPayload, Judged, Consistent, WorldOf, Passes, Fails;
    var ds := [Delivered(repoId, installationId, first), Delivered(repoId, installationId, second)];
    var w := WorldOf(repoId, first, second);
    var key := Rerun(repoId, first.runId, first.name);
    ThereIsAWorld(repoId, installationId, first, second);
    SameDeliveries(w, ds, es);
    RowsOfTheTwo(settings, repoId, installationId, first, second);
    var jobs := HandledAll(settings, EMPTY, ds).jobs;
    OnlyRecovery(settings, jobs, key, first.id.value, second.id.value);
    EventsAreWhatTheRowsSay(settings, w, ds, key);
    Order.EventsAgree(settings, w, ds, es);
  }

  /** Of two rows that fail and pass in this order, the recovery is the only one. */
  lemma OnlyRecovery(settings: Settings, jobs: Jobs, key: EventKey, i: int, j: int)
    requires jobs.Keys == {i, j} && Sooner(jobs, i, j)
    requires Fails(settings, jobs, key, i) && Passes(settings, jobs, key, j)
    ensures Recovers(settings, jobs, key, i, j) && Contradict(settings, jobs, key, i, j)
    ensures forall a, b :: Recovers(settings, jobs, key, a, b) ==> a == i && b == j
  {
    hide Judged, InGroup;
  }

  lemma SameDeliveries(w: World, ds: seq<Delivery>, es: seq<Delivery>)
    requires AllConsistent(w, ds) && Elements(ds) == Elements(es)
    ensures AllConsistent(w, es)
  {
    forall d | d in es
      ensures Consistent(w, d)
    {
      assert d in Elements(es);
    }
  }

  /** After both deliveries there are the two rows, a judged failure and a later success. */
  lemma RowsOfTheTwo(settings: Settings, repoId: int, installationId: int, first: JobBody, second: JobBody)
    requires repoId != 0 && FailsThenSucceeds(first, second)
    ensures var ds := [Delivered(repoId, installationId, first), Delivered(repoId, installationId, second)];
            var jobs, key := HandledAll(settings, EMPTY, ds).jobs, Rerun(repoId, first.runId, first.name);
            && jobs.Keys == {first.id.value, second.id.value}
            && Fails(settings, jobs, key, first.id.value) && Passes(settings, jobs, key, second.id.value)
            && Sooner(jobs, first.id.value, second.id.value)
  {
    hide Handled;
    var d, e := Delivered(repoId, installationId, first), Delivered(repoId, installationId, second);
    assert [d, e][..1] == [d] && [d][..0] == [];
    assert HandledAll(settings, EMPTY, [d]) == Handled(settings, EMPTY, d);
    RowOfDelivery(settings, EMPTY, repoId, installationId, first);
    RowOfDelivery(settings, Handled(settings, EMPTY, d), repoId, installationId, second);
  }
}
