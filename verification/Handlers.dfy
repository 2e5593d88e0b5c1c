/**
  The two webhook handlers as transitions of the fact tables and the event table, and the store whose
  methods perform them in place. A delivery is handled in one transaction; a malformed one raises and
  leaves nothing behind.
 */
module Handlers {
  import opened Wrappers
  import opened Merge
  import opened Detection
  import Names

  /** Keyed on (run id, attempt). */
  datatype RunRow = RunRow(repoId: int, headSha: string, workflowId: Option<int>, progress: Payload)

  type Jobs = map<int, JobRow>
  type Runs = map<(int, int), RunRow>

  datatype State = State(jobs: Jobs, runs: Runs, events: Events)

  const EMPTY := State(map[], map[], map[])

  // ---------------------------------------------------------------------------------------------
  // Deliveries
  // ---------------------------------------------------------------------------------------------

  datatype JobBody = JobBody(
    id: Option<int>, runId: int, runAttempt: Option<int>, headSha: string, headBranch: Option<string>,
    name: string, status: Option<string>, conclusion: Option<string>, startedAt: Option<int>,
    completedAt: Option<int>, runnerName: Option<string>, labels: Option<seq<string>>,
    steps: seq<Option<string>>)

  datatype RunBody = RunBody(
    id: Option<int>, runAttempt: Option<int>, headSha: string, workflowId: Option<int>,
    headBranch: Option<string>, event: Option<string>, status: Option<string>, conclusion: Option<string>,
    runStartedAt: Option<int>, createdAt: Option<int>, updatedAt: Option<int>)

  datatype Delivery =
    | JobDelivery(repoId: Option<int>, installationId: Option<int>, job: JobBody)
    | RunDelivery(repoId: Option<int>, installationId: Option<int>, run: RunBody, workflow: Option<int>)

  predicate WellFormed(d: Delivery) {
    && Truthy(d.repoId) && d.installationId.Some?
    && Truthy(if d.JobDelivery? then d.job.id else d.run.id)
  }

  function AttemptOf(attempt: Option<int>): int {
    if Truthy(attempt) then attempt.value else 1
  }

  function OptionalCell(c: Column, v: Option<Value>): map<Column, Value> {
    if v.Some? then map[c := v.value] else map[]
  }

  function OptionalText(v: Option<string>): Option<Value> {
    if v.Some? then Some(Text(v.value)) else None
  }

  function OptionalNumber(v: Option<int>): Option<Value> {
    if v.Some? then Some(Number(v.value)) else None
  }

  function CompletedSteps(steps: seq<Option<string>>): nat {
    if steps == [] then 0
    else (if steps[0] == Some(COMPLETED) then 1 else 0) + CompletedSteps(steps[1..])
  }

  /** The progress columns of a job payload. No steps means no step counts; steps of which none
      completed means a completed count of zero, which is not NULL. */
  function JobPayload(job: JobBody): Payload {
    var counted := if job.steps == [] then None else Some(Number(|job.steps|));
    var completed := if job.steps == [] then None else Some(Number(CompletedSteps(job.steps)));
    Payload(job.status,
            OptionalCell(Conclusion, OptionalText(job.conclusion)) +
            OptionalCell(StartedAt, OptionalNumber(job.startedAt)) +
            OptionalCell(CompletedAt, OptionalNumber(job.completedAt)) +
            OptionalCell(RunnerName, OptionalText(job.runnerName)) +
            OptionalCell(RunnerLabels, if job.labels.Some? then Some(Labels(job.labels.value)) else None) +
            OptionalCell(StepCount, counted) +
            OptionalCell(CompletedStepCount, completed))
  }

  /** A job payload knows its run's branch and nothing else of the run's progress. */
  function StubPayload(job: JobBody): Payload {
    Payload(None, OptionalCell(HeadBranch, OptionalText(job.headBranch)))
  }

  function RunPayload(run: RunBody): Payload {
    Payload(run.status,
            OptionalCell(HeadBranch, OptionalText(run.headBranch)) +
            OptionalCell(Event, OptionalText(run.event)) +
            OptionalCell(Conclusion, OptionalText(run.conclusion)) +
            OptionalCell(RunStartedAt, OptionalNumber(run.runStartedAt)) +
            OptionalCell(GithubCreatedAt, OptionalNumber(run.createdAt)) +
            OptionalCell(GithubUpdatedAt, OptionalNumber(run.updatedAt)))
  }

  function SuppliedWorkflow(run: RunBody, workflow: Option<int>): Option<int> {
    if Truthy(run.workflowId) then run.workflowId else workflow
  }

  // ---------------------------------------------------------------------------------------------
  // Writes
  // ---------------------------------------------------------------------------------------------

  function UpsertedRuns(
    runs: Runs, repoId: int, runId: int, attempt: int, headSha: string, workflowId: Option<int>,
    progress: Payload): Runs
  {
    var key := (runId, attempt);
    runs[key :=
      if key !in runs then RunRow(repoId, headSha, workflowId, progress)
      else RunRow(runs[key].repoId, headSha, Coalesce(runs[key].workflowId, workflowId),
                  NeverRegress(progress, runs[key].progress))]
  }

  /** The identity columns of a stored job are never written again, except an unknown workflow. */
  function UpsertedJobs(jobs: Jobs, repoId: int, id: int, job: JobBody, workflowId: Option<int>): Jobs {
    jobs[id :=
      if id !in jobs then
        JobRow(repoId, job.runId, AttemptOf(job.runAttempt), job.headSha, job.name, workflowId, JobPayload(job))
      else
        jobs[id].(workflowId := Coalesce(jobs[id].workflowId, workflowId),
                  progress := NeverRegress(JobPayload(job), jobs[id].progress))]
  }

  function KnowingAttempts(runs: Runs, runId: int): set<int> {
    set k | k in runs && k.0 == runId && runs[k].workflowId.Some? :: k.1
  }

  /** The workflow of whichever attempt knows it. The query takes any one; this is the lowest. */
  function RunWorkflowId(runs: Runs, runId: int): Option<int> {
    var attempts := KnowingAttempts(runs, runId);
    if attempts == {} then None else runs[(runId, Detection.Least(attempts))].workflowId
  }

  function PropagatedRuns(runs: Runs, runId: int, workflowId: int): Runs {
    map k | k in runs ::
      if k.0 == runId then runs[k].(workflowId := Coalesce(runs[k].workflowId, Some(workflowId))) else runs[k]
  }

  function PropagatedJobs(jobs: Jobs, runId: int, workflowId: int): Jobs {
    map id | id in jobs ::
      if jobs[id].runId == runId then jobs[id].(workflowId := Coalesce(jobs[id].workflowId, Some(workflowId)))
      else jobs[id]
  }

  /** Every attempt of the run knows a workflow; what was known, every other column and every other run
      stayed. */
  ghost predicate RunsFilled(before: Runs, after: Runs, runId: int, workflowId: int) {
    && after.Keys == before.Keys
    && (forall k :: k in before && k.0 == runId ==> after[k].workflowId.Some?)
    && forall k :: k in before ==>
         after[k] == if k.0 == runId && before[k].workflowId.None? then before[k].(workflowId := Some(workflowId))
                     else before[k]
  }

  ghost predicate JobsFilled(before: Jobs, after: Jobs, runId: int, workflowId: int) {
    && after.Keys == before.Keys
    && (forall id :: id in before && before[id].runId == runId ==> after[id].workflowId.Some?)
    && forall id :: id in before ==>
         after[id] == if before[id].runId == runId && before[id].workflowId.None?
                      then before[id].(workflowId := Some(workflowId))
                      else before[id]
  }

  /** The names of the jobs that propagation changes. */
  function ChangedNames(jobs: Jobs, runId: int): set<string> {
    set id | id in jobs && jobs[id].runId == runId && jobs[id].workflowId.None? :: jobs[id].name
  }

  function EvaluateNames(events: Events, view: View, repoId: int, runId: int, names: seq<string>): Events {
    if names == [] then events
    else
      var before := EvaluateNames(events, view, repoId, runId, names[..|names| - 1]);
      EvaluateJob(before, view, repoId, runId, names[|names| - 1])
  }

  // ---------------------------------------------------------------------------------------------
  // Handlers
  // ---------------------------------------------------------------------------------------------

  function RunsAfterJob(runs: Runs, repoId: int, job: JobBody): Runs {
    UpsertedRuns(runs, repoId, job.runId, AttemptOf(job.runAttempt), job.headSha, None, StubPayload(job))
  }

  function JobsAfterJob(st: State, repoId: int, id: int, job: JobBody): Jobs {
    UpsertedJobs(st.jobs, repoId, id, job, RunWorkflowId(RunsAfterJob(st.runs, repoId, job), job.runId))
  }

  function HandledJob(settings: Settings, st: State, repoId: int, id: int, job: JobBody): State {
    var jobs := JobsAfterJob(st, repoId, id, job);
    State(jobs, RunsAfterJob(st.runs, repoId, job),
      EvaluateJob(st.events, ViewOf(settings, jobs), repoId, job.runId, job.name))
  }

  function RunsAfterRun(runs: Runs, repoId: int, runId: int, run: RunBody, workflow: Option<int>): Runs {
    UpsertedRuns(runs, repoId, runId, AttemptOf(run.runAttempt), run.headSha, SuppliedWorkflow(run, workflow),
      RunPayload(run))
  }

  function HandledRun(
    settings: Settings, st: State, repoId: int, runId: int, run: RunBody, workflow: Option<int>): State
  {
    var runs := RunsAfterRun(st.runs, repoId, runId, run, workflow);
    var known := RunWorkflowId(runs, runId);
    if known.None? then st.(runs := runs)
    else
      var jobs := PropagatedJobs(st.jobs, runId, known.value);
      State(jobs, PropagatedRuns(runs, runId, known.value),
            EvaluateNames(st.events, ViewOf(settings, jobs), repoId, runId,
              Names.SortedNames(ChangedNames(st.jobs, runId))))
  }

  function Handled(settings: Settings, st: State, d: Delivery): State {
    if !WellFormed(d) then st
    else if d.JobDelivery? then HandledJob(settings, st, d.repoId.value, d.job.id.value, d.job)
    else HandledRun(settings, st, d.repoId.value, d.run.id.value, d.run, d.workflow)
  }

  /** Deliveries processed one after the other. */
  function HandledAll(settings: Settings, st: State, ds: seq<Delivery>): State {
    if ds == [] then st else Handled(settings, HandledAll(settings, st, ds[..|ds| - 1]), ds[|ds| - 1])
  }

  // ---------------------------------------------------------------------------------------------
  // What a write stores, column by column, in the fields of the body
  // ---------------------------------------------------------------------------------------------

  type Cells = map<Column, Value>

  /** A cell of a row, or none. */
  ghost function CellOf(cells: Cells, c: Column): Option<Value> {
    if c in cells then Some(cells[c]) else None
  }

  ghost function StepsCompleted(steps: seq<Option<string>>): set<int> {
    set i | 0 <= i < |steps| && steps[i] == Some("completed")
  }

  /** What a job body says of each column. Zero completed steps is not unknown; no steps at all is. */
  ghost function JobField(job: JobBody, c: Column): Option<Value> {
    match c
    case Conclusion => if job.conclusion.Some? then Some(Text(job.conclusion.value)) else None
    case StartedAt => if job.startedAt.Some? then Some(Number(job.startedAt.value)) else None
    case CompletedAt => if job.completedAt.Some? then Some(Number(job.completedAt.value)) else None
    case RunnerName => if job.runnerName.Some? then Some(Text(job.runnerName.value)) else None
    case RunnerLabels => if job.labels.Some? then Some(Labels(job.labels.value)) else None
    case StepCount => if |job.steps| > 0 then Some(Number(|job.steps|)) else None
    case CompletedStepCount => if |job.steps| > 0 then Some(Number(|StepsCompleted(job.steps)|)) else None
    case _ => None
  }

  ghost function RunField(run: RunBody, c: Column): Option<Value> {
    match c
    case HeadBranch => if run.headBranch.Some? then Some(Text(run.headBranch.value)) else None
    case Event => if run.event.Some? then Some(Text(run.event.value)) else None
    case Conclusion => if run.conclusion.Some? then Some(Text(run.conclusion.value)) else None
    case RunStartedAt => if run.runStartedAt.Some? then Some(Number(run.runStartedAt.value)) else None
    case GithubCreatedAt => if run.createdAt.Some? then Some(Number(run.createdAt.value)) else None
    case GithubUpdatedAt => if run.updatedAt.Some? then Some(Number(run.updatedAt.value)) else None
    case _ => None
  }

  /** Of its run a job body says nothing but the branch. */
  ghost function StubField(job: JobBody, c: Column): Option<Value> {
    if c == HeadBranch && job.headBranch.Some? then Some(Text(job.headBranch.value)) else None
  }

  /** A write applies to a new row, and to one whose status is not ahead of the body's. */
  ghost predicate AppliesTo(stored: Option<Payload>, status: Option<string>) {
    stored.None? || !Ahead(stored.value.status, status)
  }

  /** The row's status and columns after a body: where the body applies its status, and of each column what
      it says if it says anything; everywhere else what was stored. */
  ghost predicate ProgressWritten(
    stored: Option<Payload>, after: Payload, status: Option<string>, field: Column -> Option<Value>)
  {
    && after.status == (if AppliesTo(stored, status) then status else stored.value.status)
    && forall c: Column :: CellWritten(stored, after, status, field(c), c)
  }

  ghost predicate CellWritten(
    stored: Option<Payload>, after: Payload, status: Option<string>, says: Option<Value>, c: Column)
  {
    CellOf(after.cells, c) ==
      if AppliesTo(stored, status) && says.Some? then says
      else if stored.Some? then CellOf(stored.value.cells, c) else None
  }

  ghost function JobProgress(jobs: Jobs, id: int): Option<Payload> {
    if id in jobs then Some(jobs[id].progress) else None
  }

  ghost function RunProgress(runs: Runs, key: (int, int)): Option<Payload> {
    if key in runs then Some(runs[key].progress) else None
  }

  /** The attempt a body names; without one, or with zero, the first. */
  ghost predicate IsAttempt(attempt: int, field: Option<int>) {
    attempt == if field.None? || field.value == 0 then 1 else field.value
  }

  /** The job's row after a delivery: identity from the first body that named it, progress from the most
      advanced ones. No other row moves. */
  ghost predicate JobWritten(before: Jobs, after: Jobs, repoId: int, id: int, job: JobBody) {
    && after.Keys == before.Keys + {id}
    && (forall i :: i in before && i != id ==> after[i] == before[i])
    && (if id in before then
          && after[id].repoId == before[id].repoId && after[id].runId == before[id].runId
          && after[id].runAttempt == before[id].runAttempt && after[id].headSha == before[id].headSha
          && after[id].name == before[id].name
        else
          && after[id].repoId == repoId && after[id].runId == job.runId
          && IsAttempt(after[id].runAttempt, job.runAttempt)
          && after[id].headSha == job.headSha && after[id].name == job.name)
    && ProgressWritten(JobProgress(before, id), after[id].progress, job.status, c => JobField(job, c))
  }

  /** The first known workflow stays. */
  ghost predicate WorkflowWritten(before: Option<int>, after: Option<int>, given: Option<int>) {
    after == if before.Some? then before else given
  }

  ghost function JobWorkflow(jobs: Jobs, id: int): Option<int> {
    if id in jobs then jobs[id].workflowId else None
  }

  lemma {:induction false} CompletedStepsAreCounted(steps: seq<Option<string>>, from: nat)
    requires from <= |steps|
    ensures CompletedSteps(steps[from..]) == |set i | from <= i < |steps| && steps[i] == Some("completed")|
    decreases |steps| - from
  {
    var here := set i | from <= i < |steps| && steps[i] == Some("completed");
    if from == |steps| {
      assert here == {};
    } else {
      CompletedStepsAreCounted(steps, from + 1);
      var later := set i | from + 1 <= i < |steps| && steps[i] == Some("completed");
      assert steps[from..][1..] == steps[from + 1..];
      assert here == later + if steps[from] == Some("completed") then {from} else {};
    }
  }

  lemma CellOfSum(a: Cells, c: Column, v: Option<Value>, d: Column)
    ensures CellOf(a + OptionalCell(c, v), d) == if c == d && v.Some? then v else CellOf(a, d)
  {
  }

  lemma OneCell(c: Column, v: Option<Value>, d: Column)
    ensures CellOf(OptionalCell(c, v), d) == if c == d then v else None
  {
  }

  lemma JobPayloadIsTheBody(job: JobBody, d: Column)
    ensures JobPayload(job).status == job.status && CellOf(JobPayload(job).cells, d) == JobField(job, d)
  {
    hide CellOf, OptionalCell;
    var steps := if job.steps == [] then None else Some(Number(|job.steps|));
    var completed := if job.steps == [] then None else Some(Number(CompletedSteps(job.steps)));
    var labels := if job.labels.Some? then Some(Labels(job.labels.value)) else None;
    CompletedStepsAreCounted(job.steps, 0);
    assert job.steps[0..] == job.steps;
    var one := OptionalCell(Conclusion, OptionalText(job.conclusion));
    var two := one + OptionalCell(StartedAt, OptionalNumber(job.startedAt));
    var three := two + OptionalCell(CompletedAt, OptionalNumber(job.completedAt));
    var four := three + OptionalCell(RunnerName, OptionalText(job.runnerName));
    var five := four + OptionalCell(RunnerLabels, labels);
    var six := five + OptionalCell(StepCount, steps);
    OneCell(Conclusion, OptionalText(job.conclusion), d);
    CellOfSum(one, StartedAt, OptionalNumber(job.startedAt), d);
    CellOfSum(two, CompletedAt, OptionalNumber(job.completedAt), d);
    CellOfSum(three, RunnerName, OptionalText(job.runnerName), d);
    CellOfSum(four, RunnerLabels, labels, d);
    CellOfSum(five, StepCount, steps, d);
    CellOfSum(six, CompletedStepCount, completed, d);
  }

  lemma RunPayloadIsTheBody(run: RunBody, d: Column)
    ensures RunPayload(run).status == run.status && CellOf(RunPayload(run).cells, d) == RunField(run, d)
  {
    hide CellOf, OptionalCell;
    var one := OptionalCell(HeadBranch, OptionalText(run.headBranch));
    var two := one + OptionalCell(Event, OptionalText(run.event));
    var three := two + OptionalCell(Conclusion, OptionalText(run.conclusion));
    var four := three + OptionalCell(RunStartedAt, OptionalNumber(run.runStartedAt));
    var five := four + OptionalCell(GithubCreatedAt, OptionalNumber(run.createdAt));
    OneCell(HeadBranch, OptionalText(run.headBranch), d);
    CellOfSum(one, Event, OptionalText(run.event), d);
    CellOfSum(two, Conclusion, OptionalText(run.conclusion), d);
    CellOfSum(three, RunStartedAt, OptionalNumber(run.runStartedAt), d);
    CellOfSum(four, GithubCreatedAt, OptionalNumber(run.createdAt), d);
    CellOfSum(five, GithubUpdatedAt, OptionalNumber(run.updatedAt), d);
  }

  lemma StubPayloadIsTheBody(job: JobBody, d: Column)
    ensures StubPayload(job).status == None && CellOf(StubPayload(job).cells, d) == StubField(job, d)
  {
  }

  /** The merge of one payload into what is stored, in these terms. */
  lemma MergeIsWritten(stored: Option<Payload>, p: Payload, field: Column -> Option<Value>)
    requires forall c: Column :: CellOf(p.cells, c) == field(c)
    ensures ProgressWritten(stored, if stored.Some? then NeverRegress(p, stored.value) else p, p.status, field)
  {
    var after := if stored.Some? then NeverRegress(p, stored.value) else p;
    forall c: Column
      ensures CellWritten(stored, after, p.status, field(c), c)
    {
      assert CellOf(p.cells, c) == field(c);
    }
  }

  lemma ColumnIsWritten(
    stored: Option<Payload>, after: Payload, status: Option<string>, field: Column -> Option<Value>, c: Column)
    requires ProgressWritten(stored, after, status, field)
    ensures CellWritten(stored, after, status, field(c), c)
  {
  }

  lemma UpsertedJobIsWritten(jobs: Jobs, repoId: int, id: int, job: JobBody, workflowId: Option<int>)
    ensures var after := UpsertedJobs(jobs, repoId, id, job, workflowId);
            && JobWritten(jobs, after, repoId, id, job)
            && WorkflowWritten(JobWorkflow(jobs, id), after[id].workflowId, workflowId)
  {
    hide JobPayload, ProgressWritten, NeverRegress, JobField, CellOf;
    forall c: Column {
      JobPayloadIsTheBody(job, c);
    }
    JobPayloadIsTheBody(job, Conclusion);
    MergeIsWritten(JobProgress(jobs, id), JobPayload(job), c => JobField(job, c));
  }

  ghost function AttemptRow(runId: int, attempt: Option<int>): (int, int) {
    (runId, if attempt.None? || attempt.value == 0 then 1 else attempt.value)
  }

  /** The row of a run attempt after a body: its repository from the first body, its commit from the last,
      progress from the most advanced ones. Of other rows only an unknown workflow may change. */
  ghost predicate RunWritten(
    before: Runs, after: Runs, repoId: int, key: (int, int), headSha: string, status: Option<string>,
    field: Column -> Option<Value>)
  {
    && after.Keys == before.Keys + {key}
    && (forall k :: k in before && k != key ==> after[k].(workflowId := before[k].workflowId) == before[k])
    && after[key].repoId == (if key in before then before[key].repoId else repoId) && after[key].headSha == headSha
    && ProgressWritten(RunProgress(before, key), after[key].progress, status, field)
  }

  ghost function RunWorkflow(runs: Runs, key: (int, int)): Option<int> {
    if key in runs then runs[key].workflowId else None
  }

  /** What is known of a workflow, of any attempt, stays. */
  ghost predicate WorkflowsStay(before: Runs, after: Runs) {
    forall k :: k in before && before[k].workflowId.Some? ==> k in after && after[k].workflowId == before[k].workflowId
  }

  ghost predicate SomeAttemptKnows(runs: Runs, runId: int, workflowId: int) {
    exists a :: (runId, a) in runs && runs[(runId, a)].workflowId == Some(workflowId)
  }

  lemma UpsertedRunIsWritten(
    runs: Runs, repoId: int, runId: int, attempt: int, headSha: string, workflowId: Option<int>, p: Payload,
    field: Column -> Option<Value>)
    requires forall c: Column :: CellOf(p.cells, c) == field(c)
    ensures var after, key := UpsertedRuns(runs, repoId, runId, attempt, headSha, workflowId, p), (runId, attempt);
            && RunWritten(runs, after, repoId, key, headSha, p.status, field)
            && WorkflowWritten(RunWorkflow(runs, key), after[key].workflowId, workflowId)
            && forall k :: k in runs && k != key ==> after[k] == runs[k]
  {
    hide ProgressWritten, NeverRegress, CellOf;
    MergeIsWritten(RunProgress(runs, (runId, attempt)), p, field);
  }

  /** The row a job delivery leaves, and the stub of its run. The job learns its run's workflow from any
      attempt that knows it. A malformed delivery writes nothing. */
  lemma JobDeliveryWrites(settings: Settings, st: State, d: Delivery)
    requires d.JobDelivery?
    ensures var after, job := Handled(settings, st, d), d.job;
            if job.id == None || job.id == Some(0) || d.repoId == None || d.repoId == Some(0) ||
               d.installationId == None
            then after == st
            else
              var id, repoId, key := job.id.value, d.repoId.value, AttemptRow(job.runId, job.runAttempt);
              && JobWritten(st.jobs, after.jobs, repoId, id, job)
              && RunWritten(st.runs, after.runs, repoId, key, job.headSha, None, c => StubField(job, c))
              && after.runs[key].workflowId == RunWorkflow(st.runs, key) && WorkflowsStay(st.runs, after.runs)
              && JobLearns(st, after.jobs, id, job.runId)
  {
    if WellFormed(d) {
      var id, repoId, job := d.job.id.value, d.repoId.value, d.job;
      JobRowsWrite(st, repoId, id, job);
      StubIsWritten(st.runs, repoId, job);
    }
  }

  /** A known workflow stays; an unknown one becomes that of an attempt that knows one, if any does. */
  ghost predicate JobLearns(st: State, after: Jobs, id: int, runId: int) {
    && id in after
    && if JobWorkflow(st.jobs, id).Some? then after[id].workflowId == JobWorkflow(st.jobs, id)
       else if after[id].workflowId.Some? then SomeAttemptKnows(st.runs, runId, after[id].workflowId.value)
       else forall w :: !SomeAttemptKnows(st.runs, runId, w)
  }

  lemma StubIsWritten(runs: Runs, repoId: int, job: JobBody)
    ensures var after, key := RunsAfterJob(runs, repoId, job), AttemptRow(job.runId, job.runAttempt);
            && RunWritten(runs, after, repoId, key, job.headSha, None, c => StubField(job, c))
            && after[key].workflowId == RunWorkflow(runs, key) && WorkflowsStay(runs, after)
            && forall w :: SomeAttemptKnows(after, job.runId, w) <==> SomeAttemptKnows(runs, job.runId, w)
  {
    hide RunWritten, StubPayload, CellOf, StubField;
    var key := AttemptRow(job.runId, job.runAttempt);
    forall c: Column {
      StubPayloadIsTheBody(job, c);
    }
    StubPayloadIsTheBody(job, Conclusion);
    UpsertedRunIsWritten(
      runs, repoId, job.runId, AttemptOf(job.runAttempt), job.headSha, None, StubPayload(job), c => StubField(job, c));
    var after := RunsAfterJob(runs, repoId, job);
    forall k
      ensures RunWorkflow(after, k) == RunWorkflow(runs, k)
    {
    }
    SameKnowledge(runs, after, job.runId);
  }

  lemma SameKnowledge(runs: Runs, after: Runs, runId: int)
    requires forall k :: RunWorkflow(after, k) == RunWorkflow(runs, k)
    ensures forall w :: SomeAttemptKnows(after, runId, w) <==> SomeAttemptKnows(runs, runId, w)
  {
    forall a, w
      ensures ((runId, a) in after && after[(runId, a)].workflowId == Some(w)) <==>
              ((runId, a) in runs && runs[(runId, a)].workflowId == Some(w))
    {
      assert RunWorkflow(after, (runId, a)) == RunWorkflow(runs, (runId, a));
    }
  }

  lemma KnownWorkflowIsSomeones(runs: Runs, runId: int)
    ensures RunWorkflowId(runs, runId).Some? ==> SomeAttemptKnows(runs, runId, RunWorkflowId(runs, runId).value)
    ensures RunWorkflowId(runs, runId).None? ==> forall w :: !SomeAttemptKnows(runs, runId, w)
  {
    if w :| SomeAttemptKnows(runs, runId, w) {
      var a :| (runId, a) in runs && runs[(runId, a)].workflowId == Some(w);
      assert a in KnowingAttempts(runs, runId);
    }
  }

  lemma JobRowsWrite(st: State, repoId: int, id: int, job: JobBody)
    ensures var after := JobsAfterJob(st, repoId, id, job);
            JobWritten(st.jobs, after, repoId, id, job) && JobLearns(st, after, id, job.runId)
  {
    hide JobWritten, UpsertedJobs, RunWorkflowId, SomeAttemptKnows, RunsAfterJob, RunWritten;
    var runs := RunsAfterJob(st.runs, repoId, job);
    UpsertedJobIsWritten(st.jobs, repoId, id, job, RunWorkflowId(runs, job.runId));
    assert id in UpsertedJobs(st.jobs, repoId, id, job, RunWorkflowId(runs, job.runId)) by {
      UpsertedHas(st.jobs, repoId, id, job, RunWorkflowId(runs, job.runId));
    }
    KnownWorkflowIsSomeones(runs, job.runId);
    StubIsWritten(st.runs, repoId, job);
  }

  lemma UpsertedHas(jobs: Jobs, repoId: int, id: int, job: JobBody, workflowId: Option<int>)
    ensures id in UpsertedJobs(jobs, repoId, id, job, workflowId)
  {
  }

  /** The row a run delivery leaves. Its workflow is the one it had, or the body's, which zero does not
      name, or the event's. Of the jobs only unknown workflows of the run may change. */
  lemma RunDeliveryWrites(settings: Settings, st: State, d: Delivery)
    requires d.RunDelivery?
    ensures var after, run := Handled(settings, st, d), d.run;
            if run.id == None || run.id == Some(0) || d.repoId == None || d.repoId == Some(0) ||
               d.installationId == None
            then after == st
            else
              var runId, key := run.id.value, AttemptRow(run.id.value, run.runAttempt);
              && RunWritten(st.runs, after.runs, d.repoId.value, key, run.headSha, run.status, c => RunField(run, c))
              && WorkflowsStay(st.runs, after.runs) && RunLearns(st.runs, after.runs, key, run.workflowId, d.workflow)
              && OnlyLearn(st.jobs, after.jobs, runId) && AllOrNone(st.runs, after, key)
  {
    if WellFormed(d) {
      var runId, repoId, run := d.run.id.value, d.repoId.value, d.run;
      RunRowIsWritten(st.runs, repoId, runId, run, d.workflow);
      var runs := RunsAfterRun(st.runs, repoId, runId, run, d.workflow);
      var known := RunWorkflowId(runs, runId);
      if known.Some? {
        PropagationWrites(st.runs, runs, repoId, runId, run, d.workflow, known.value);
        PropagationReachesAll(settings, st, repoId, runId, run, d.workflow);
      } else {
        KnownWorkflowIsSomeones(runs, runId);
        NobodyKnew(st.runs, runs, runId);
      }
    }
  }

  lemma KnowerKnows(runs: Runs, runId: int, a: int)
    requires RunWorkflow(runs, (runId, a)).Some?
    ensures SomeAttemptKnows(runs, runId, RunWorkflow(runs, (runId, a)).value)
  {
  }

  lemma NobodyKnew(before: Runs, runs: Runs, runId: int)
    requires WorkflowsStay(before, runs) && forall w :: !SomeAttemptKnows(runs, runId, w)
    ensures forall w :: !SomeAttemptKnows(before, runId, w)
    ensures forall a :: RunWorkflow(runs, (runId, a)).None?
  {
    forall w
      ensures !SomeAttemptKnows(before, runId, w)
    {
      assert !SomeAttemptKnows(runs, runId, w);
    }
    forall a
      ensures RunWorkflow(runs, (runId, a)).None?
    {
      if RunWorkflow(runs, (runId, a)).Some? {
        KnowerKnows(runs, runId, a);
      }
    }
  }

  lemma PropagationReachesAll(
    settings: Settings, st: State, repoId: int, runId: int, run: RunBody, workflow: Option<int>)
    requires RunWorkflowId(RunsAfterRun(st.runs, repoId, runId, run, workflow), runId).Some?
    ensures AllOrNone(st.runs, HandledRun(settings, st, repoId, runId, run, workflow),
                      AttemptRow(runId, run.runAttempt))
  {
    hide EvaluateNames, RunPayload, NeverRegress, RunWorkflowId;
  }

  ghost predicate RunLearns(
    before: Runs, after: Runs, key: (int, int), ofBody: Option<int>, ofEvent: Option<int>)
  {
    && key in after
    && (RunWorkflow(before, key).None? && ofBody.Some? && ofBody.value != 0 ==> after[key].workflowId == ofBody)
    && (RunWorkflow(before, key).None? && (ofBody == None || ofBody == Some(0)) && ofEvent.Some? ==>
          after[key].workflowId == ofEvent)
    && (RunWorkflow(before, key).None? && (ofBody == None || ofBody == Some(0)) && ofEvent.None? ==>
          after[key].workflowId.Some? ==> SomeAttemptKnows(before, key.0, after[key].workflowId.value))
  }

  /** Every attempt and every job of the run knows a workflow, or no attempt does. */
  ghost predicate AllOrNone(before: Runs, after: State, key: (int, int)) {
    if RunWorkflow(after.runs, key).Some? then
      && (forall k :: k in after.runs && k.0 == key.0 ==> after.runs[k].workflowId.Some?)
      && (forall id :: id in after.jobs && after.jobs[id].runId == key.0 ==> after.jobs[id].workflowId.Some?)
    else forall w :: !SomeAttemptKnows(before, key.0, w)
  }

  ghost predicate OnlyLearn(before: Jobs, after: Jobs, runId: int) {
    && after.Keys == before.Keys
    && forall id :: id in before ==>
         && after[id].(workflowId := before[id].workflowId) == before[id]
         && (after[id].workflowId != before[id].workflowId ==> before[id].workflowId.None? && before[id].runId == runId)
  }

  lemma RunRowIsWritten(runs: Runs, repoId: int, runId: int, run: RunBody, workflow: Option<int>)
    ensures var after, key := RunsAfterRun(runs, repoId, runId, run, workflow), AttemptRow(runId, run.runAttempt);
            && RunWritten(runs, after, repoId, key, run.headSha, run.status, c => RunField(run, c))
            && WorkflowsStay(runs, after) && RunLearns(runs, after, key, run.workflowId, workflow)
            && WorkflowWritten(RunWorkflow(runs, key), after[key].workflowId, SuppliedWorkflow(run, workflow))
            && (forall k :: k in runs && k != key ==> after[k] == runs[k])
  {
    hide RunWritten, RunPayload, CellOf, RunField;
    forall c: Column {
      RunPayloadIsTheBody(run, c);
    }
    RunPayloadIsTheBody(run, Conclusion);
    UpsertedRunIsWritten(runs, repoId, runId, AttemptOf(run.runAttempt), run.headSha, SuppliedWorkflow(run, workflow),
                         RunPayload(run), c => RunField(run, c));
    assert AttemptRow(runId, run.runAttempt) in RunsAfterRun(runs, repoId, runId, run, workflow);
  }

  lemma PropagationWrites(
    before: Runs, runs: Runs, repoId: int, runId: int, run: RunBody, workflow: Option<int>, known: int)
    requires runs == RunsAfterRun(before, repoId, runId, run, workflow) && RunWorkflowId(runs, runId) == Some(known)
    ensures var after, key := PropagatedRuns(runs, runId, known), AttemptRow(runId, run.runAttempt);
            && RunWritten(before, after, repoId, key, run.headSha, run.status, c => RunField(run, c))
            && WorkflowsStay(before, after) && RunLearns(before, after, key, run.workflowId, workflow)
  {
    hide RunPayload, RunField, ProgressWritten, RunsAfterRun, RunWorkflowId;
    RunRowIsWritten(before, repoId, runId, run, workflow);
    KnownWorkflowIsSomeones(runs, runId);
    var after, key := PropagatedRuns(runs, runId, known), AttemptRow(runId, run.runAttempt);
    if RunWorkflow(before, key).None? && SuppliedWorkflow(run, workflow).None? {
      var a :| (runId, a) in runs && runs[(runId, a)].workflowId == Some(known);
      assert (runId, a) in before && before[(runId, a)].workflowId == Some(known);
      assert SomeAttemptKnows(before, runId, known);
    }
  }

  // ---------------------------------------------------------------------------------------------
  // The tables, updated in place
  // ---------------------------------------------------------------------------------------------

  class Store {
    const settings: Settings
    var jobs: Jobs
    var runs: Runs
    var events: Events

    constructor (settings: Settings)
      ensures this.settings == settings && Contents() == EMPTY
    {
      this.settings := settings;
      jobs, runs, events := map[], map[], map[];
    }

    function Contents(): State
      reads this
    {
      State(jobs, runs, events)
    }

    function CurrentView(): View
      reads this
    {
      ViewOf(settings, jobs)
    }

    method UpsertRun(repoId: int, runId: int, attempt: int, headSha: string, workflowId: Option<int>, progress: Payload)
      modifies this`runs
      ensures RunWritten(old(runs), runs, repoId, (runId, attempt), headSha, progress.status,
                         c => CellOf(progress.cells, c))
      ensures WorkflowWritten(RunWorkflow(old(runs), (runId, attempt)), runs[(runId, attempt)].workflowId, workflowId)
      ensures runs == UpsertedRuns(old(runs), repoId, runId, attempt, headSha, workflowId, progress)
    {
      hide RunWritten, WorkflowWritten;
      UpsertedRunIsWritten(runs, repoId, runId, attempt, headSha, workflowId, progress, c => CellOf(progress.cells, c));
      var key := (runId, attempt);
      if key in runs {
        var stored := runs[key];
        runs := runs[key := RunRow(stored.repoId, headSha, Coalesce(stored.workflowId, workflowId),
                                   NeverRegress(progress, stored.progress))];
      } else {
        runs := runs[key := RunRow(repoId, headSha, workflowId, progress)];
      }
    }

    method UpsertJob(repoId: int, id: int, job: JobBody, workflowId: Option<int>)
      modifies this`jobs
      ensures JobWritten(old(jobs), jobs, repoId, id, job)
      ensures WorkflowWritten(JobWorkflow(old(jobs), id), jobs[id].workflowId, workflowId)
      ensures jobs == UpsertedJobs(old(jobs), repoId, id, job, workflowId)
    {
      hide JobWritten, WorkflowWritten;
      UpsertedJobIsWritten(jobs, repoId, id, job, workflowId);
      if id in jobs {
        var stored := jobs[id];
        jobs := jobs[id := stored.(workflowId := Coalesce(stored.workflowId, workflowId),
                                   progress := NeverRegress(JobPayload(job), stored.progress))];
      } else {
        jobs := jobs[id := JobRow(repoId, job.runId, AttemptOf(job.runAttempt), job.headSha, job.name,
                                  workflowId, JobPayload(job))];
      }
    }

    /** Afterwards every attempt and every job of the run knows a workflow, the given one where none was
        known; nothing else changes. The names are those of the jobs that changed, in strict order. */
    method PropagateWorkflowId(runId: int, workflowId: int) returns (names: seq<string>)
      modifies this`runs, this`jobs
      ensures RunsFilled(old(runs), runs, runId, workflowId) && JobsFilled(old(jobs), jobs, runId, workflowId)
      ensures Names.Ascending(names)
      ensures forall name :: name in names <==>
                exists id :: id in old(jobs) && jobs[id] != old(jobs)[id] && jobs[id].name == name
      ensures runs == PropagatedRuns(old(runs), runId, workflowId)
      ensures jobs == PropagatedJobs(old(jobs), runId, workflowId)
      ensures names == Names.SortedNames(ChangedNames(old(jobs), runId))
    {
      Names.SortedNamesAscend(ChangedNames(jobs, runId));
      Names.SortedNamesAreTheSet(ChangedNames(jobs, runId));
      names := Names.SortedNames(ChangedNames(jobs, runId));
      runs := PropagatedRuns(runs, runId, workflowId);
      jobs := PropagatedJobs(jobs, runId, workflowId);
    }

    method RecordFlakeEvent(key: EventKey, event: FlakeEvent)
      modifies this`events
      ensures key in events && events[key].evidence == event.evidence
      ensures event.occurredAt.Some? ==> events[key].occurredAt == event.occurredAt
      ensures event.occurredAt.None? ==>
                events[key].occurredAt == if key in old(events) then old(events)[key].occurredAt else None
      ensures forall k :: k != key ==>
                (k in events <==> k in old(events)) && (k in old(events) ==> events[k] == old(events)[k])
      ensures events == Record(old(events), key, event)
    {
      if key in events {
        events := events[key := FlakeEvent(event.evidence, Coalesce(event.occurredAt, events[key].occurredAt))];
      } else {
        events := events[key := event];
      }
    }

    method EvaluateRerunRecovery(
      repoId: int, runId: int, name: string, attempts: seq<Opportunity>) returns (fired: bool)
      modifies this`events
      ensures fired == (Recoveries(attempts) != [])
      ensures events == Detection.EvaluateRerunRecovery(old(events), attempts, repoId, runId, name)
    {
      fired := Recoveries(attempts) != [];
      if fired {
        RecordFlakeEvent(Rerun(repoId, runId, name), RerunEvent(attempts));
      }
    }

    method EvaluateSameCommit(repoId: int, workflowId: Option<int>, name: string, headSha: string) returns (fired: bool)
      modifies this`events
      ensures events == Detection.EvaluateSameCommit(old(events), CurrentView(), repoId, workflowId, name, headSha)
      ensures !fired ==> events == old(events)
    {
      fired := false;
      if workflowId.Some? {
        var runs := Ordered(OnCommit(CurrentView(), repoId, workflowId.value, name, headSha));
        fired := Disagree(runs);
        if fired {
          RecordFlakeEvent(SameCommit(repoId, workflowId.value, name, headSha), CommitEvent(runs));
        }
      }
    }

    method EvaluateJob(repoId: int, runId: int, name: string)
      modifies this`events
      ensures events == Detection.EvaluateJob(old(events), CurrentView(), repoId, runId, name)
    {
      hide Ordered, Detection.EvaluateSameCommit, Detection.EvaluateRerunRecovery;
      var attempts := Ordered(InRun(CurrentView(), repoId, runId, name));
      var _ := EvaluateRerunRecovery(repoId, runId, name, attempts);
      if attempts != [] {
        var _ := EvaluateSameCommit(repoId, FirstWorkflow(attempts, CurrentView().workflows), name,
                                    attempts[|attempts| - 1].headSha);
      }
    }

    method HandleWorkflowJob(repoId: Option<int>, installationId: Option<int>, job: JobBody) returns (ok: bool)
      modifies this
      ensures ok <==> job.id.Some? && job.id.value != 0 && repoId.Some? && repoId.value != 0 && installationId.Some?
      ensures ok == WellFormed(JobDelivery(repoId, installationId, job))
      ensures Contents() == Handled(settings, old(Contents()), JobDelivery(repoId, installationId, job))
    {
      hide JobWritten, RunWritten, WorkflowWritten, UpsertedRuns, UpsertedJobs, ViewOf;
      ok := Truthy(job.id) && Truthy(repoId) && installationId.Some?;
      if ok {
        UpsertRun(repoId.value, job.runId, AttemptOf(job.runAttempt), job.headSha, None, StubPayload(job));
        UpsertJob(repoId.value, job.id.value, job, RunWorkflowId(runs, job.runId));
        EvaluateJob(repoId.value, job.runId, job.name);
      }
    }

    method HandleWorkflowRun(repoId: Option<int>, installationId: Option<int>, run: RunBody, workflow: Option<int>)
      returns (ok: bool)
      modifies this
      ensures ok <==> run.id.Some? && run.id.value != 0 && repoId.Some? && repoId.value != 0 && installationId.Some?
      ensures ok == WellFormed(RunDelivery(repoId, installationId, run, workflow))
      ensures Contents() == Handled(settings, old(Contents()), RunDelivery(repoId, installationId, run, workflow))
    {
      hide Detection.EvaluateJob, PropagatedRuns, PropagatedJobs, RunWorkflowId, ViewOf, Names.SortedNames;
      hide RunsFilled, JobsFilled, RunWritten, WorkflowWritten, UpsertedRuns;
      ok := Truthy(run.id) && Truthy(repoId) && installationId.Some?;
      if ok {
        var runId := run.id.value;
        UpsertRun(repoId.value, runId, AttemptOf(run.runAttempt), run.headSha, SuppliedWorkflow(run, workflow),
          RunPayload(run));
        var known := RunWorkflowId(runs, runId);
        if known.Some? {
          var names := PropagateWorkflowId(runId, known.value);
          label propagated:
          for i := 0 to |names|
            invariant jobs == old@propagated(jobs) && runs == old@propagated(runs)
            invariant events == EvaluateNames(old(events), CurrentView(), repoId.value, runId, names[..i])
          {
            EvaluateJob(repoId.value, runId, names[i]);
            assert names[..i + 1][..i] == names[..i];
          }
          assert names[..|names|] == names;
        }
      }
    }

    /** Any number of deliveries, in the order they are processed. */
    method HandleAll(ds: seq<Delivery>)
      modifies this
      ensures Contents() == HandledAll(settings, old(Contents()), ds)
    {
      for i := 0 to |ds|
        invariant Contents() == HandledAll(settings, old(Contents()), ds[..i])
      {
        var d := ds[i];
        assert ds[..i + 1][..i] == ds[..i];
        if d.JobDelivery? {
          var _ := HandleWorkflowJob(d.repoId, d.installationId, d.job);
        } else {
          var _ := HandleWorkflowRun(d.repoId, d.installationId, d.run, d.workflow);
        }
      }
      assert ds[..|ds|] == ds;
    }
  }
}
