/**
  The two flake signals over the opportunities of the job table. An evaluation reads the
  opportunities of one group in (run, attempt) order and upserts at most one event for the group.
 */
module Detection {
  import opened Wrappers
  import opened Merge

  datatype Settings = Settings(timedOutIsFailure: bool, excludeInfraFailures: bool)

  datatype JobRow = JobRow(
    repoId: int, runId: int, runAttempt: int, headSha: string, name: string,
    workflowId: Option<int>, progress: Payload)

  const SUCCESS := "success"
  const FAILURE := "failure"

  function TextCell(p: Payload, c: Column): Option<string> {
    if c in p.cells && p.cells[c].Text? then Some(p.cells[c].text) else None
  }

  function NumberCell(p: Payload, c: Column): Option<int> {
    if c in p.cells && p.cells[c].Number? then Some(p.cells[c].number) else None
  }

  predicate Eligible(settings: Settings, conclusion: Option<string>) {
    || conclusion == Some(SUCCESS)
    || conclusion == Some(FAILURE)
    || (settings.timedOutIsFailure && conclusion == Some("timed_out"))
  }

  /** `opportunity_filter`. A failure whose steps were planned but whose completed count is NULL is
      not selected: the negated conjunction is NULL there, and WHERE keeps only TRUE. */
  predicate IsOpportunity(settings: Settings, p: Payload) {
    && Eligible(settings, TextCell(p, Conclusion))
    && (settings.excludeInfraFailures && TextCell(p, Conclusion) != Some(SUCCESS) && NumberCell(p, StepCount).Some? ==>
          NumberCell(p, CompletedStepCount).Some? && NumberCell(p, CompletedStepCount).value != 0)
  }

  datatype Opportunity = Opportunity(
    jobId: int, repoId: int, runId: int, runAttempt: int, name: string, headSha: string,
    failed: bool, completedAt: Option<int>)

  function OpportunityOf(id: int, job: JobRow): Opportunity {
    Opportunity(id, job.repoId, job.runId, job.runAttempt, job.name, job.headSha,
                TextCell(job.progress, Conclusion) != Some(SUCCESS), NumberCell(job.progress, CompletedAt))
  }

  /** What detection can see of the job table: the opportunities, and the workflow of every job whose
      workflow is known. */
  datatype View = View(opportunities: map<int, Opportunity>, workflows: map<int, int>)

  function ViewOf(settings: Settings, jobs: map<int, JobRow>): View {
    View(map id | id in jobs && IsOpportunity(settings, jobs[id].progress) :: OpportunityOf(id, jobs[id]),
         map id | id in jobs && jobs[id].workflowId.Some? :: jobs[id].workflowId.value)
  }

  // ---------------------------------------------------------------------------------------------
  // Queries
  // ---------------------------------------------------------------------------------------------

  /** ORDER BY run, attempt. Rows that tie are put in job id order. */
  predicate Before(a: Opportunity, i: int, b: Opportunity, j: int) {
    || a.runId < b.runId
    || (a.runId == b.runId && a.runAttempt < b.runAttempt)
    || (a.runId == b.runId && a.runAttempt == b.runAttempt && i < j)
  }

  predicate IsFirst(group: map<int, Opportunity>, i: int) {
    i in group && forall j :: j in group && j != i ==> Before(group[i], i, group[j], j)
  }

  lemma {:induction false} FirstExists(group: map<int, Opportunity>)
    requires group != map[]
    ensures exists i :: IsFirst(group, i)
    decreases |group|
  {
    assert group.Keys != {};
    var i := Pick(group.Keys);
    var rest := group - {i};
    assert group == rest[i := group[i]];
    if rest == map[] {
      assert IsFirst(group, i);
    } else {
      FirstExists(rest);
      var k :| IsFirst(rest, k);
      assert IsFirst(group, if Before(group[i], i, group[k], k) then i else k);
    }
  }

  function First(group: map<int, Opportunity>): (i: int)
    requires group != map[]
    ensures IsFirst(group, i)
  {
    FirstExists(group);
    var i :| IsFirst(group, i);
    i
  }

  /** The opportunities of a group in query order. */
  function Ordered(group: map<int, Opportunity>): seq<Opportunity>
    decreases |group|
  {
    if group == map[] then []
    else
      var i := First(group);
      assert |group - {i}| < |group| by { assert group == (group - {i})[i := group[i]]; }
      [group[i]] + Ordered(group - {i})
  }

  function InRun(view: View, repoId: int, runId: int, name: string): map<int, Opportunity> {
    map id | id in view.opportunities &&
             view.opportunities[id].repoId == repoId &&
             view.opportunities[id].runId == runId &&
             view.opportunities[id].name == name :: view.opportunities[id]
  }

  function OnCommit(view: View, repoId: int, workflowId: int, name: string, headSha: string): map<int, Opportunity> {
    map id | id in view.opportunities &&
             id in view.workflows && view.workflows[id] == workflowId &&
             view.opportunities[id].repoId == repoId &&
             view.opportunities[id].name == name &&
             view.opportunities[id].headSha == headSha :: view.opportunities[id]
  }

  // ---------------------------------------------------------------------------------------------
  // Events
  // ---------------------------------------------------------------------------------------------

  /** The unique key of a flake event. The columns the other signal groups on are NULL, which the
      constraint treats as equal. */
  datatype EventKey =
    | Rerun(repoId: int, runId: int, name: string)
    | SameCommit(repoId: int, workflowId: int, name: string, headSha: string)

  datatype Evidence =
    | RerunEvidence(headSha: string, jobIds: seq<int>, attempts: seq<(int, int, bool)>, recoveries: seq<(int, int)>)
    | CommitEvidence(jobIds: seq<int>, jobRuns: seq<(int, int, int, bool)>, runs: nat)

  datatype FlakeEvent = FlakeEvent(evidence: Evidence, occurredAt: Option<int>)

  type Events = map<EventKey, FlakeEvent>

  /** The upsert: evidence is replaced, an unknown time does not replace a known one. */
  function Record(events: Events, key: EventKey, event: FlakeEvent): Events {
    var before := if key in events then events[key].occurredAt else None;
    events[key := FlakeEvent(event.evidence, Coalesce(event.occurredAt, before))]
  }

  function Least(ids: set<int>): (i: int)
    requires ids != {}
    ensures i in ids && forall j :: j in ids ==> i <= j
  {
    LeastExists(ids);
    var i :| i in ids && forall j :: j in ids ==> i <= j;
    i
  }

  /** The ids of a set in ascending order. */
  function SortedIds(ids: set<int>): seq<int>
    decreases |ids|
  {
    if ids == {} then [] else [Least(ids)] + SortedIds(ids - {Least(ids)})
  }

  lemma {:induction false} LeastExists(ids: set<int>)
    requires ids != {}
    ensures exists i :: i in ids && forall j :: j in ids ==> i <= j
    decreases |ids|
  {
    var i := Pick(ids);
    if ids == {i} {
      assert forall j :: j in ids ==> i <= j;
    } else {
      var others := ids - {i};
      LeastExists(others);
      var k :| k in others && forall j :: j in others ==> k <= j;
      var least := if i < k then i else k;
      forall j | j in ids
        ensures least <= j
      {
        assert j == i || j in others;
      }
    }
  }

  /** The neighbours in attempt order of which the earlier failed and the later succeeded. */
  function Recoveries(attempts: seq<Opportunity>): seq<(Opportunity, Opportunity)> {
    if |attempts| < 2 then []
    else
      (if attempts[0].failed && !attempts[1].failed then [(attempts[0], attempts[1])] else []) +
        Recoveries(attempts[1..])
  }

  function RerunEvent(attempts: seq<Opportunity>): FlakeEvent
    requires Recoveries(attempts) != []
  {
    var pairs := Recoveries(attempts);
    var latest := pairs[|pairs| - 1].1;
    var ids := (set pair | pair in pairs :: pair.0.jobId) + (set pair | pair in pairs :: pair.1.jobId);
    FlakeEvent(
      RerunEvidence(
        latest.headSha,
        SortedIds(ids),
        seq(|attempts|, i requires 0 <= i < |attempts| =>
              (attempts[i].runAttempt, attempts[i].jobId, attempts[i].failed)),
        seq(|pairs|, i requires 0 <= i < |pairs| => (pairs[i].0.runAttempt, pairs[i].1.runAttempt))),
      latest.completedAt)
  }

  function LatestTime(runs: seq<Opportunity>): Option<int> {
    if runs == [] then None
    else
      var rest := LatestTime(runs[1..]);
      if runs[0].completedAt.None? || (rest.Some? && rest.value >= runs[0].completedAt.value) then rest
      else runs[0].completedAt
  }

  predicate Disagree(runs: seq<Opportunity>) {
    (exists run :: run in runs && run.failed) && (exists run :: run in runs && !run.failed)
  }

  function CommitEvent(runs: seq<Opportunity>): FlakeEvent {
    FlakeEvent(
      CommitEvidence(
        SortedIds(set run | run in runs :: run.jobId),
        seq(|runs|, i requires 0 <= i < |runs| => (runs[i].runId, runs[i].runAttempt, runs[i].jobId, runs[i].failed)),
        |set run | run in runs :: run.runId|),
      LatestTime(runs))
  }

  // ---------------------------------------------------------------------------------------------
  // Evaluation
  // ---------------------------------------------------------------------------------------------

  /** Signal A. */
  function EvaluateRerunRecovery(
    events: Events, attempts: seq<Opportunity>, repoId: int, runId: int, name: string): Events
  {
    if Recoveries(attempts) == [] then events else Record(events, Rerun(repoId, runId, name), RerunEvent(attempts))
  }

  /** Signal B. */
  function EvaluateSameCommit(
    events: Events, view: View, repoId: int, workflowId: Option<int>, name: string, headSha: string): Events
  {
    if workflowId.None? then events
    else
      var runs := Ordered(OnCommit(view, repoId, workflowId.value, name, headSha));
      if !Disagree(runs) then events
      else Record(events, SameCommit(repoId, workflowId.value, name, headSha), CommitEvent(runs))
  }

  /** The first workflow known among the attempts; the id zero does not count as known. */
  function FirstWorkflow(attempts: seq<Opportunity>, workflows: map<int, int>): Option<int> {
    if attempts == [] then None
    else if attempts[0].jobId in workflows && workflows[attempts[0].jobId] != 0 then Some(workflows[attempts[0].jobId])
    else FirstWorkflow(attempts[1..], workflows)
  }

  function EvaluateJob(events: Events, view: View, repoId: int, runId: int, name: string): Events {
    var attempts := Ordered(InRun(view, repoId, runId, name));
    var recovered := EvaluateRerunRecovery(events, attempts, repoId, runId, name);
    if attempts == [] then recovered
    else
      EvaluateSameCommit(recovered, view, repoId, FirstWorkflow(attempts, view.workflows), name,
                         attempts[|attempts| - 1].headSha)
  }
}
