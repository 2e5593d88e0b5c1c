/**
  Deliveries about one world of GitHub facts, processed in any order and any number of times: after
  every delivery the event table is exactly what the facts imply, and the final tables depend only on
  which deliveries were processed.
 */
module Convergence {
  import opened Wrappers
  import opened Merge
  import opened Detection
  import opened Signals
  import opened Handlers
  import Names

  datatype JobIdentity = JobIdentity(runId: int, runAttempt: int, name: string)

  /** What GitHub's ids stand for: the repository, commit and workflow of a run; the run, attempt and
      name of a job; and the payload of a job that has completed. */
  datatype World = World(
    repoOf: int -> int, shaOf: int -> string, workflowOf: int -> int,
    jobOf: int -> JobIdentity, completedOf: int -> Payload)

  /** A delivery tells the truth about the world: completed payloads of one job agree and supply every
      column its other payloads supply, and only completed payloads have a conclusion. */
  ghost predicate Consistent(w: World, d: Delivery) {
    WellFormed(d) ==>
      match d
      case JobDelivery(repoId, _, job) =>
        && repoId.value == w.repoOf(job.runId) && job.headSha == w.shaOf(job.runId)
        && w.jobOf(job.id.value) == JobIdentity(job.runId, AttemptOf(job.runAttempt), job.name)
        && TrueProgress(w, job.id.value, JobPayload(job))
      case RunDelivery(repoId, _, run, workflow) =>
        && repoId.value == w.repoOf(run.id.value) && run.headSha == w.shaOf(run.id.value)
        && (SuppliedWorkflow(run, workflow).Some? ==> TrueWorkflow(w, run.id.value, SuppliedWorkflow(run, workflow)))
  }

  ghost predicate TrueProgress(w: World, id: int, p: Payload) {
    if p.status == Some(COMPLETED) then p == w.completedOf(id)
    else Conclusion !in p.cells && p.cells.Keys <= w.completedOf(id).cells.Keys
  }

  ghost predicate TrueWorkflow(w: World, runId: int, workflow: Option<int>) {
    workflow == Some(w.workflowOf(runId)) && w.workflowOf(runId) != 0
  }

  ghost predicate AllConsistent(w: World, ds: seq<Delivery>) {
    forall d :: d in ds ==> Consistent(w, d)
  }

  // ---------------------------------------------------------------------------------------------
  // The fact tables describe the world
  // ---------------------------------------------------------------------------------------------

  ghost predicate TrueRuns(w: World, runs: Runs) {
    forall k :: k in runs ==>
      && runs[k].repoId == w.repoOf(k.0) && runs[k].headSha == w.shaOf(k.0)
      && (runs[k].workflowId.Some? ==> TrueWorkflow(w, k.0, runs[k].workflowId))
  }

  ghost predicate TrueJob(w: World, id: int, job: JobRow) {
    && w.jobOf(id) == JobIdentity(job.runId, job.runAttempt, job.name)
    && job.repoId == w.repoOf(job.runId) && job.headSha == w.shaOf(job.runId)
    && TrueProgress(w, id, job.progress)
  }

  /** The runs of which some attempt knows the workflow. */
  ghost function KnowingRuns(runs: Runs): iset<int> {
    iset r | KnowingAttempts(runs, r) != {}
  }

  /** The job rows are true, and a job knows its workflow exactly when its run does. */
  ghost predicate TrueJobs(w: World, jobs: Jobs, knowing: iset<int>) {
    forall id :: id in jobs ==>
      && TrueJob(w, id, jobs[id])
      && jobs[id].workflowId == WorkflowIn(w, knowing, jobs[id].runId)
  }

  ghost function WorkflowIn(w: World, knowing: iset<int>, runId: int): Option<int> {
    if runId in knowing then Some(w.workflowOf(runId)) else None
  }

  ghost predicate Valid(w: World, st: State) {
    TrueRuns(w, st.runs) && TrueJobs(w, st.jobs, KnowingRuns(st.runs))
  }

  /** Whichever attempt the query picks, it answers with the run's own workflow. */
  lemma RunWorkflowIsTheRuns(w: World, runs: Runs, runId: int)
    requires TrueRuns(w, runs)
    ensures RunWorkflowId(runs, runId) == WorkflowIn(w, KnowingRuns(runs), runId)
    ensures runId in KnowingRuns(runs) ==> w.workflowOf(runId) != 0
    ensures forall k :: k in runs && k.0 == runId && runs[k].workflowId.Some? ==>
              runs[k].workflowId == RunWorkflowId(runs, runId)
  {
    var attempts := KnowingAttempts(runs, runId);
    if attempts != {} {
      assert Detection.Least(attempts) in attempts;
    }
    forall k | k in runs && k.0 == runId && runs[k].workflowId.Some?
      ensures k.1 in attempts
    {
    }
  }

  lemma UpsertKeepsRunsTrue(w: World, runs: Runs, runId: int, attempt: int, workflowId: Option<int>, p: Payload)
    requires TrueRuns(w, runs)
    requires workflowId.Some? ==> TrueWorkflow(w, runId, workflowId)
    ensures var after := UpsertedRuns(runs, w.repoOf(runId), runId, attempt, w.shaOf(runId), workflowId, p);
            && TrueRuns(w, after)
            && KnowingRuns(after) == KnowingRuns(runs) + if workflowId.Some? then iset{runId} else iset{}
  {
    var after := UpsertedRuns(runs, w.repoOf(runId), runId, attempt, w.shaOf(runId), workflowId, p);
    forall r
      ensures r in KnowingRuns(after) <==> r in KnowingRuns(runs) || (r == runId && workflowId.Some?)
    {
      forall a | a in KnowingAttempts(runs, r)
        ensures a in KnowingAttempts(after, r)
      {
        assert (r, a) in after;
      }
      if workflowId.Some? {
        assert (runId, attempt) in after;
        assert attempt in KnowingAttempts(after, runId);
      }
      forall a | a in KnowingAttempts(after, r)
        ensures a in KnowingAttempts(runs, r) || (r == runId && workflowId.Some?)
      {
        assert (r, a) in after;
      }
    }
  }

  lemma MergeKeepsProgressTrue(w: World, id: int, p: Payload, stored: Payload)
    requires TrueProgress(w, id, p) && TrueProgress(w, id, stored)
    ensures TrueProgress(w, id, NeverRegress(p, stored))
    ensures stored.status == Some(COMPLETED) ==> NeverRegress(p, stored) == stored
    ensures p.status == Some(COMPLETED) ==> NeverRegress(p, stored) == p
    ensures NeverRegress(p, stored).status == Some(COMPLETED) ==>
              p.status == Some(COMPLETED) || stored.status == Some(COMPLETED)
  {
    assert p.status == Some(COMPLETED) ==> stored.cells + p.cells == p.cells;
  }

  lemma OpportunitiesAreCompleted(settings: Settings, w: World, st: State, id: int)
    requires Valid(w, st) && id in ViewOf(settings, st.jobs).opportunities
    ensures st.jobs[id].progress == w.completedOf(id) && st.jobs[id].progress.status == Some(COMPLETED)
  {
    assert TrueJob(w, id, st.jobs[id]);
  }

  // ---------------------------------------------------------------------------------------------
  // One job delivery
  // ---------------------------------------------------------------------------------------------

  lemma FirstWorkflowIs(attempts: seq<Opportunity>, workflows: map<int, int>, known: int)
    requires forall o :: o in attempts && o.jobId in workflows ==> workflows[o.jobId] == known
    requires known != 0
    ensures FirstWorkflow(attempts, workflows) ==
            if exists o :: o in attempts && o.jobId in workflows then Some(known) else None
  {
  }

  /** Evaluating a job name looks at every group that an opportunity of that name in that run is in. */
  lemma EvaluatedCovers(settings: Settings, w: World, st: State, id: int, key: EventKey)
    requires Valid(w, st)
    requires id in ViewOf(settings, st.jobs).opportunities && id in Group(ViewOf(settings, st.jobs), key)
    ensures var job := st.jobs[id];
            key in Evaluated(ViewOf(settings, st.jobs), job.repoId, job.runId, job.name)
  {
    var view, job := ViewOf(settings, st.jobs), st.jobs[id];
    var attempts := Ordered(InRun(view, job.repoId, job.runId, job.name));
    OrderedHasTheGroup(InRun(view, job.repoId, job.runId, job.name));
    assert view.opportunities[id] in attempts;
    assert attempts[|attempts| - 1] in attempts;
    if key.SameCommit? {
      RunWorkflowIsTheRuns(w, st.runs, job.runId);
      FirstWorkflowIs(attempts, view.workflows, w.workflowOf(job.runId));
    }
  }

  ghost predicate ConsistentJob(w: World, repoId: int, id: int, job: JobBody) {
    Consistent(w, JobDelivery(Some(repoId), Some(0), job)) && job.id == Some(id) && id != 0 && repoId != 0
  }

  lemma UpsertKeepsJobsTrue(w: World, jobs: Jobs, knowing: iset<int>, repoId: int, id: int, job: JobBody)
    requires TrueJobs(w, jobs, knowing) && ConsistentJob(w, repoId, id, job)
    ensures TrueJobs(w, UpsertedJobs(jobs, repoId, id, job, WorkflowIn(w, knowing, job.runId)), knowing)
  {
    if id in jobs {
      MergeKeepsProgressTrue(w, id, JobPayload(job), jobs[id].progress);
    }
  }

  lemma UpsertExtendsView(
    settings: Settings, w: World, jobs: Jobs, knowing: iset<int>, repoId: int, id: int, job: JobBody)
    requires TrueJobs(w, jobs, knowing) && ConsistentJob(w, repoId, id, job)
    ensures var after := UpsertedJobs(jobs, repoId, id, job, WorkflowIn(w, knowing, job.runId));
            Extends(ViewOf(settings, jobs), ViewOf(settings, after))
  {
    hide ViewOf, UpsertedJobs, TrueJobs;
    UpsertKeepsOpportunities(settings, w, jobs, knowing, repoId, id, job);
    UpsertKeepsWorkflows(settings, w, jobs, knowing, repoId, id, job);
  }

  lemma UpsertKeepsOpportunities(
    settings: Settings, w: World, jobs: Jobs, knowing: iset<int>, repoId: int, id: int, job: JobBody)
    requires TrueJobs(w, jobs, knowing) && ConsistentJob(w, repoId, id, job)
    ensures var after := UpsertedJobs(jobs, repoId, id, job, WorkflowIn(w, knowing, job.runId));
            var v, v' := ViewOf(settings, jobs).opportunities, ViewOf(settings, after).opportunities;
            Keyed(v) && Keyed(v') && forall i :: i in v ==> i in v' && v'[i] == v[i]
  {
    hide IsOpportunity, NeverRegress, ConsistentJob;
    if id in jobs && IsOpportunity(settings, jobs[id].progress) {
      MergeKeepsOpportunity(settings, w, repoId, id, job, jobs[id]);
    }
  }

  lemma MergeKeepsOpportunity(settings: Settings, w: World, repoId: int, id: int, job: JobBody, row: JobRow)
    requires TrueJob(w, id, row) && ConsistentJob(w, repoId, id, job) && IsOpportunity(settings, row.progress)
    ensures var after := row.(progress := NeverRegress(JobPayload(job), row.progress));
            IsOpportunity(settings, after.progress) && OpportunityOf(id, after) == OpportunityOf(id, row)
  {
    MergeKeepsProgressTrue(w, id, JobPayload(job), row.progress);
  }

  lemma UpsertKeepsWorkflows(
    settings: Settings, w: World, jobs: Jobs, knowing: iset<int>, repoId: int, id: int, job: JobBody)
    requires TrueJobs(w, jobs, knowing) && ConsistentJob(w, repoId, id, job)
    ensures var after := UpsertedJobs(jobs, repoId, id, job, WorkflowIn(w, knowing, job.runId));
            var v, v' := ViewOf(settings, jobs).workflows, ViewOf(settings, after).workflows;
            forall i :: i in v ==> i in v' && v'[i] == v[i]
  {
    hide IsOpportunity, OpportunityOf, NeverRegress;
  }

  lemma JobStepFacts(w: World, st: State, repoId: int, id: int, job: JobBody)
    requires Valid(w, st) && ConsistentJob(w, repoId, id, job)
    ensures TrueRuns(w, RunsAfterJob(st.runs, repoId, job))
    ensures KnowingRuns(RunsAfterJob(st.runs, repoId, job)) == KnowingRuns(st.runs)
    ensures JobsAfterJob(st, repoId, id, job) ==
            UpsertedJobs(st.jobs, repoId, id, job, WorkflowIn(w, KnowingRuns(st.runs), job.runId))
    ensures TrueJobs(w, JobsAfterJob(st, repoId, id, job), KnowingRuns(st.runs))
  {
    UpsertKeepsRunsTrue(w, st.runs, job.runId, AttemptOf(job.runAttempt), None, StubPayload(job));
    RunWorkflowIsTheRuns(w, RunsAfterJob(st.runs, repoId, job), job.runId);
    UpsertKeepsJobsTrue(w, st.jobs, KnowingRuns(st.runs), repoId, id, job);
  }

  lemma JobStepGroups(settings: Settings, w: World, st: State, repoId: int, id: int, job: JobBody, key: EventKey)
    requires Valid(w, st) && ConsistentJob(w, repoId, id, job)
    requires key !in Evaluated(ViewOf(settings, JobsAfterJob(st, repoId, id, job)), repoId, job.runId, job.name)
    ensures Group(ViewOf(settings, st.jobs), key) == Group(ViewOf(settings, JobsAfterJob(st, repoId, id, job)), key)
  {
    JobStepFacts(w, st, repoId, id, job);
    UpsertExtendsView(settings, w, st.jobs, KnowingRuns(st.runs), repoId, id, job);
    JobIsInNoOtherGroup(settings, w, st, repoId, id, job, key);
    SameGroup(ViewOf(settings, st.jobs), ViewOf(settings, JobsAfterJob(st, repoId, id, job)), key);
  }

  lemma JobIsInNoOtherGroup(settings: Settings, w: World, st: State, repoId: int, id: int, job: JobBody, key: EventKey)
    requires Valid(w, st) && ConsistentJob(w, repoId, id, job)
    requires key !in Evaluated(ViewOf(settings, JobsAfterJob(st, repoId, id, job)), repoId, job.runId, job.name)
    ensures id !in Group(ViewOf(settings, JobsAfterJob(st, repoId, id, job)), key)
  {
    var after := State(JobsAfterJob(st, repoId, id, job), RunsAfterJob(st.runs, repoId, job), map[]);
    StoredJobIsTheDelivered(w, st, repoId, id, job, after);
    if id in Group(ViewOf(settings, after.jobs), key) {
      EvaluatedCovers(settings, w, after, id, key);
    }
  }

  lemma StoredJobIsTheDelivered(w: World, st: State, repoId: int, id: int, job: JobBody, after: State)
    requires Valid(w, st) && ConsistentJob(w, repoId, id, job)
    requires after.jobs == JobsAfterJob(st, repoId, id, job) && after.runs == RunsAfterJob(st.runs, repoId, job)
    ensures Valid(w, after) && id in after.jobs
    ensures after.jobs[id].repoId == repoId && after.jobs[id].runId == job.runId && after.jobs[id].name == job.name
  {
    JobStepFacts(w, st, repoId, id, job);
    assert TrueJob(w, id, after.jobs[id]);
  }

  lemma JobStep(settings: Settings, w: World, st: State, repoId: int, id: int, job: JobBody, missing: iset<EventKey>)
    requires Valid(w, st) && ConsistentJob(w, repoId, id, job)
    requires Sound(st.events, ViewOf(settings, st.jobs), iset{}) &&
             Complete(st.events, ViewOf(settings, st.jobs), missing)
    ensures var after := HandledJob(settings, st, repoId, id, job);
            var view := ViewOf(settings, after.jobs);
            && Valid(w, after)
            && Extends(ViewOf(settings, st.jobs), view)
            && Sound(after.events, view, iset{})
            && Complete(after.events, view, missing - Evaluated(view, repoId, job.runId, job.name))
  {
    var v, view := ViewOf(settings, st.jobs), ViewOf(settings, JobsAfterJob(st, repoId, id, job));
    var touched := Evaluated(view, repoId, job.runId, job.name);
    JobStepFacts(w, st, repoId, id, job);
    UpsertExtendsView(settings, w, st.jobs, KnowingRuns(st.runs), repoId, id, job);
    forall key | key !in touched
      ensures Group(v, key) == Group(view, key)
    {
      JobStepGroups(settings, w, st, repoId, id, job, key);
    }
    NewFactsDirty(st.events, v, view, iset{}, missing, touched);
    EvaluateJobCleans(st.events, view, repoId, job.runId, job.name, iset{} + touched, missing + touched);
    assert iset{} + touched - touched == iset{};
    assert missing + touched - touched == missing - touched;
  }

  // ---------------------------------------------------------------------------------------------
  // One run delivery
  // ---------------------------------------------------------------------------------------------

  ghost function EvaluatedNames(view: View, repoId: int, runId: int, names: seq<string>): iset<EventKey> {
    if names == [] then iset{}
    else EvaluatedNames(view, repoId, runId, names[..|names| - 1]) + Evaluated(view, repoId, runId, names[|names| - 1])
  }

  lemma {:induction false} EvaluatedNamesHas(view: View, repoId: int, runId: int, names: seq<string>, name: string)
    requires name in names
    ensures Evaluated(view, repoId, runId, name) <= EvaluatedNames(view, repoId, runId, names)
  {
    if name != names[|names| - 1] {
      EvaluatedNamesHas(view, repoId, runId, names[..|names| - 1], name);
    }
  }

  lemma {:induction false} EvaluateNamesCleans(
    events: Events, view: View, repoId: int, runId: int, names: seq<string>, dirty: iset<EventKey>,
    missing: iset<EventKey>)
    requires Keyed(view.opportunities) && Sound(events, view, dirty) && Complete(events, view, missing)
    ensures var after := EvaluateNames(events, view, repoId, runId, names);
            && Sound(after, view, dirty - EvaluatedNames(view, repoId, runId, names))
            && Complete(after, view, missing - EvaluatedNames(view, repoId, runId, names))
  {
    if names == [] {
      assert dirty - iset{} == dirty && missing - iset{} == missing;
    } else {
      var before, name := names[..|names| - 1], names[|names| - 1];
      var done := EvaluatedNames(view, repoId, runId, before);
      EvaluateNamesCleans(events, view, repoId, runId, before, dirty, missing);
      EvaluateJobCleans(EvaluateNames(events, view, repoId, runId, before), view, repoId, runId, name,
                        dirty - done, missing - done);
      assert dirty - done - Evaluated(view, repoId, runId, name) == dirty - EvaluatedNames(view, repoId, runId, names);
      assert missing - done - Evaluated(view, repoId, runId, name) ==
             missing - EvaluatedNames(view, repoId, runId, names);
    }
  }

  lemma PropagateKeepsRunsTrue(w: World, runs: Runs, runId: int)
    requires TrueRuns(w, runs) && runId in KnowingRuns(runs)
    ensures var after := PropagatedRuns(runs, runId, w.workflowOf(runId));
            TrueRuns(w, after) && KnowingRuns(after) == KnowingRuns(runs)
  {
    RunWorkflowIsTheRuns(w, runs, runId);
    var after := PropagatedRuns(runs, runId, w.workflowOf(runId));
    forall r
      ensures r in KnowingRuns(after) <==> r in KnowingRuns(runs)
    {
      forall a | a in KnowingAttempts(runs, r)
        ensures a in KnowingAttempts(after, r)
      {
        assert (r, a) in after;
      }
      forall a | a in KnowingAttempts(after, r)
        ensures r in KnowingRuns(runs)
      {
        assert (r, a) in after;
        if r != runId {
          assert a in KnowingAttempts(runs, r);
        }
      }
    }
  }

  ghost predicate ConsistentRun(w: World, repoId: int, runId: int, run: RunBody, workflow: Option<int>) {
    && Consistent(w, RunDelivery(Some(repoId), Some(0), run, workflow))
    && run.id == Some(runId) && runId != 0 && repoId != 0
  }

  lemma RunStepRuns(w: World, st: State, repoId: int, runId: int, run: RunBody, workflow: Option<int>)
    requires Valid(w, st) && ConsistentRun(w, repoId, runId, run, workflow)
    ensures var runs := RunsAfterRun(st.runs, repoId, runId, run, workflow);
            && TrueRuns(w, runs)
            && KnowingRuns(runs) == KnowingRuns(st.runs) +
               (if SuppliedWorkflow(run, workflow).Some? then iset{runId} else iset{})
            && RunWorkflowId(runs, runId) == WorkflowIn(w, KnowingRuns(runs), runId)
            && (runId in KnowingRuns(runs) ==>
                  && TrueRuns(w, PropagatedRuns(runs, runId, w.workflowOf(runId)))
                  && KnowingRuns(PropagatedRuns(runs, runId, w.workflowOf(runId))) == KnowingRuns(runs))
  {
    var runs := RunsAfterRun(st.runs, repoId, runId, run, workflow);
    UpsertKeepsRunsTrue(w, st.runs, runId, AttemptOf(run.runAttempt), SuppliedWorkflow(run, workflow), RunPayload(run));
    RunWorkflowIsTheRuns(w, runs, runId);
    if runId in KnowingRuns(runs) {
      PropagateKeepsRunsTrue(w, runs, runId);
    }
  }

  lemma PropagateKeepsJobsTrue(settings: Settings, w: World, jobs: Jobs, knowing: iset<int>, runId: int)
    requires TrueJobs(w, jobs, knowing)
    ensures var after := PropagatedJobs(jobs, runId, w.workflowOf(runId));
            && TrueJobs(w, after, knowing + iset{runId})
            && Extends(ViewOf(settings, jobs), ViewOf(settings, after))
            && ViewOf(settings, jobs).opportunities == ViewOf(settings, after).opportunities
  {
    hide TrueJobs, PropagatedJobs, ViewOf;
    PropagatedJobsAreTrue(w, jobs, knowing, runId);
    PropagationKeepsOpportunities(settings, jobs, runId, w.workflowOf(runId));
    PropagationKeepsWorkflows(settings, jobs, runId, w.workflowOf(runId));
  }

  lemma PropagatedJobsAreTrue(w: World, jobs: Jobs, knowing: iset<int>, runId: int)
    requires TrueJobs(w, jobs, knowing)
    ensures TrueJobs(w, PropagatedJobs(jobs, runId, w.workflowOf(runId)), knowing + iset{runId})
  {
    hide TrueProgress;
  }

  lemma PropagationKeepsOpportunities(settings: Settings, jobs: Jobs, runId: int, workflowId: int)
    ensures var before, after := ViewOf(settings, jobs), ViewOf(settings, PropagatedJobs(jobs, runId, workflowId));
            before.opportunities == after.opportunities && Keyed(before.opportunities)
  {
    hide IsOpportunity;
  }

  lemma PropagationKeepsWorkflows(settings: Settings, jobs: Jobs, runId: int, workflowId: int)
    ensures var before, after := ViewOf(settings, jobs), ViewOf(settings, PropagatedJobs(jobs, runId, workflowId));
            forall id :: id in before.workflows ==> id in after.workflows && after.workflows[id] == before.workflows[id]
  {
    hide IsOpportunity, OpportunityOf;
  }

  lemma PropagateGroups(settings: Settings, w: World, st: State, repoId: int, runId: int, after: State, key: EventKey)
    requires Valid(w, st) && repoId == w.repoOf(runId)
    requires Valid(w, after) && after.jobs == PropagatedJobs(st.jobs, runId, w.workflowOf(runId))
    requires key !in EvaluatedNames(ViewOf(settings, after.jobs), repoId, runId,
                                    Names.SortedNames(ChangedNames(st.jobs, runId)))
    ensures Group(ViewOf(settings, st.jobs), key) == Group(ViewOf(settings, after.jobs), key)
  {
    PropagateKeepsJobsTrue(settings, w, st.jobs, KnowingRuns(st.runs), runId);
    var v, v' := ViewOf(settings, st.jobs), ViewOf(settings, after.jobs);
    forall i | i in Group(v', key)
      ensures i in v.opportunities && (i in v'.workflows ==> i in v.workflows)
    {
      if st.jobs[i].runId == runId && st.jobs[i].workflowId.None? {
        ChangedJobIsEvaluated(settings, w, st, repoId, runId, after, key, i);
      }
    }
    SameGroup(v, v', key);
  }

  lemma ChangedJobIsEvaluated(
    settings: Settings, w: World, st: State, repoId: int, runId: int, after: State, key: EventKey, i: int)
    requires repoId == w.repoOf(runId) && i in st.jobs && st.jobs[i].runId == runId && st.jobs[i].workflowId.None?
    requires Valid(w, after) && after.jobs == PropagatedJobs(st.jobs, runId, w.workflowOf(runId))
    requires i in ViewOf(settings, after.jobs).opportunities && i in Group(ViewOf(settings, after.jobs), key)
    ensures key in EvaluatedNames(ViewOf(settings, after.jobs), repoId, runId,
                                  Names.SortedNames(ChangedNames(st.jobs, runId)))
  {
    var changed := ChangedNames(st.jobs, runId);
    assert TrueJob(w, i, after.jobs[i]);
    EvaluatedCovers(settings, w, after, i, key);
    assert st.jobs[i].name in changed;
    Names.SortedNamesAreTheSet(changed);
    EvaluatedNamesHas(ViewOf(settings, after.jobs), repoId, runId, Names.SortedNames(changed), st.jobs[i].name);
  }

  lemma PropagateStep(
    settings: Settings, w: World, st: State, repoId: int, runId: int, tables: State, missing: iset<EventKey>)
    requires Valid(w, st) && repoId == w.repoOf(runId)
    requires Valid(w, tables) && tables.jobs == PropagatedJobs(st.jobs, runId, w.workflowOf(runId))
    requires Sound(st.events, ViewOf(settings, st.jobs), iset{}) &&
             Complete(st.events, ViewOf(settings, st.jobs), missing)
    ensures var view := ViewOf(settings, tables.jobs);
            var names := Names.SortedNames(ChangedNames(st.jobs, runId));
            var events := EvaluateNames(st.events, view, repoId, runId, names);
            Sound(events, view, iset{}) && Complete(events, view, missing)
  {
    var names := Names.SortedNames(ChangedNames(st.jobs, runId));
    var v, view := ViewOf(settings, st.jobs), ViewOf(settings, tables.jobs);
    var touched := EvaluatedNames(view, repoId, runId, names);
    PropagateKeepsJobsTrue(settings, w, st.jobs, KnowingRuns(st.runs), runId);
    forall key | key !in touched
      ensures Group(v, key) == Group(view, key)
    {
      PropagateGroups(settings, w, st, repoId, runId, tables, key);
    }
    NewFactsDirty(st.events, v, view, iset{}, missing, touched);
    EvaluateNamesCleans(st.events, view, repoId, runId, names, iset{} + touched, missing + touched);
    assert iset{} + touched - touched == iset{};
    assert forall k :: k in missing + touched - touched ==> k in missing;
  }

  /** A run event that leaves the run's workflow unknown touches no job and no event. */
  lemma RunStepUnknown(
    settings: Settings, w: World, st: State, repoId: int, runId: int, run: RunBody, workflow: Option<int>)
    requires Valid(w, st) && ConsistentRun(w, repoId, runId, run, workflow)
    requires runId !in KnowingRuns(RunsAfterRun(st.runs, repoId, runId, run, workflow))
    ensures var after := HandledRun(settings, st, repoId, runId, run, workflow);
            after.jobs == st.jobs && after.events == st.events && Valid(w, after)
  {
    RunStepRuns(w, st, repoId, runId, run, workflow);
    assert KnowingRuns(RunsAfterRun(st.runs, repoId, runId, run, workflow)) == KnowingRuns(st.runs);
  }

  lemma RunStepKnown(
    settings: Settings, w: World, st: State, repoId: int, runId: int, run: RunBody, workflow: Option<int>)
    requires Valid(w, st) && ConsistentRun(w, repoId, runId, run, workflow)
    requires runId in KnowingRuns(RunsAfterRun(st.runs, repoId, runId, run, workflow))
    ensures var after := HandledRun(settings, st, repoId, runId, run, workflow);
            && after.jobs == PropagatedJobs(st.jobs, runId, w.workflowOf(runId))
            && after.events == EvaluateNames(st.events, ViewOf(settings, after.jobs), repoId, runId,
                                             Names.SortedNames(ChangedNames(st.jobs, runId)))
            && Valid(w, after)
  {
    var runs := RunsAfterRun(st.runs, repoId, runId, run, workflow);
    RunStepRuns(w, st, repoId, runId, run, workflow);
    PropagateKeepsJobsTrue(settings, w, st.jobs, KnowingRuns(st.runs), runId);
    assert KnowingRuns(runs) == KnowingRuns(st.runs) + iset{runId};
  }

  lemma RunStep(
    settings: Settings, w: World, st: State, repoId: int, runId: int, run: RunBody, workflow: Option<int>,
    missing: iset<EventKey>)
    requires Valid(w, st) && ConsistentRun(w, repoId, runId, run, workflow)
    requires Sound(st.events, ViewOf(settings, st.jobs), iset{}) &&
             Complete(st.events, ViewOf(settings, st.jobs), missing)
    ensures var after := HandledRun(settings, st, repoId, runId, run, workflow);
            var view := ViewOf(settings, after.jobs);
            && Valid(w, after)
            && Extends(ViewOf(settings, st.jobs), view)
            && Sound(after.events, view, iset{})
            && Complete(after.events, view, missing)
  {
    if runId in KnowingRuns(RunsAfterRun(st.runs, repoId, runId, run, workflow)) {
      RunStepKnown(settings, w, st, repoId, runId, run, workflow);
      PropagateKeepsJobsTrue(settings, w, st.jobs, KnowingRuns(st.runs), runId);
      PropagateStep(settings, w, st, repoId, runId, HandledRun(settings, st, repoId, runId, run, workflow), missing);
    } else {
      RunStepUnknown(settings, w, st, repoId, runId, run, workflow);
    }
  }

  // ---------------------------------------------------------------------------------------------
  // Every reachable state
  // ---------------------------------------------------------------------------------------------

  /** The event table is what the facts imply: no event missing, none stale, at most one per group. */
  ghost predicate EventsAreDerived(settings: Settings, st: State) {
    var view := ViewOf(settings, st.jobs);
    && Keyed(view.opportunities)
    && (forall k :: k in st.events <==> Fires(view, k))
    && (forall k :: k in st.events ==> Current(st.events[k], view, k))
    && (forall k :: k in st.events && Timely(view, k) ==> st.events[k] == EventFor(view, k))
  }

  lemma StepKeepsInvariant(settings: Settings, w: World, st: State, d: Delivery, missing: iset<EventKey>)
    requires Valid(w, st) && Consistent(w, d)
    requires Sound(st.events, ViewOf(settings, st.jobs), iset{}) &&
             Complete(st.events, ViewOf(settings, st.jobs), missing)
    ensures var after := Handled(settings, st, d);
            && Valid(w, after)
            && Extends(ViewOf(settings, st.jobs), ViewOf(settings, after.jobs))
            && Sound(after.events, ViewOf(settings, after.jobs), iset{})
            && Complete(after.events, ViewOf(settings, after.jobs), missing)
  {
    if WellFormed(d) {
      if d.JobDelivery? {
        JobStep(settings, w, st, d.repoId.value, d.job.id.value, d.job, missing);
      } else {
        RunStep(settings, w, st, d.repoId.value, d.run.id.value, d.run, d.workflow, missing);
      }
    }
  }

  lemma {:induction false} RunKeepsInvariant(
    settings: Settings, w: World, st: State, ds: seq<Delivery>, missing: iset<EventKey>)
    requires Valid(w, st) && AllConsistent(w, ds)
    requires Sound(st.events, ViewOf(settings, st.jobs), iset{}) &&
             Complete(st.events, ViewOf(settings, st.jobs), missing)
    ensures var after := HandledAll(settings, st, ds);
            && Valid(w, after)
            && Extends(ViewOf(settings, st.jobs), ViewOf(settings, after.jobs))
            && Sound(after.events, ViewOf(settings, after.jobs), iset{})
            && Complete(after.events, ViewOf(settings, after.jobs), missing)
  {
    if ds != [] {
      RunKeepsInvariant(settings, w, st, ds[..|ds| - 1], missing);
      StepKeepsInvariant(settings, w, HandledAll(settings, st, ds[..|ds| - 1]), ds[|ds| - 1], missing);
    }
  }

  lemma InvariantMeansDerived(settings: Settings, st: State)
    requires Sound(st.events, ViewOf(settings, st.jobs), iset{}) &&
             Complete(st.events, ViewOf(settings, st.jobs), iset{})
    ensures EventsAreDerived(settings, st)
  {
    var view := ViewOf(settings, st.jobs);
    forall k | k in st.events && Timely(view, k)
      ensures st.events[k] == EventFor(view, k)
    {
      CurrentIsExact(st.events[k], view, k);
    }
  }

  /** In every state reachable under consistent deliveries the events are exactly the derived ones,
      although no handler ever deletes an event. */
  lemma EventsAreDerivedAlways(settings: Settings, w: World, ds: seq<Delivery>)
    requires AllConsistent(w, ds)
    ensures Valid(w, HandledAll(settings, EMPTY, ds))
    ensures EventsAreDerived(settings, HandledAll(settings, EMPTY, ds))
  {
    var view := ViewOf(settings, EMPTY.jobs);
    forall k
      ensures !Fires(view, k)
    {
      assert Group(view, k) == map[];
    }
    RunKeepsInvariant(settings, w, EMPTY, ds, iset{});
    InvariantMeansDerived(settings, HandledAll(settings, EMPTY, ds));
  }
}
