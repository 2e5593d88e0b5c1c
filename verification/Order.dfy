/**
  The final tables do not depend on the order or the repetition of the deliveries, and replaying what
  was stored rebuilds every event.
 */
module Order {
  import opened Wrappers
  import opened Merge
  import opened Detection
  import opened Signals
  import opened Handlers
  import opened Convergence

  // ---------------------------------------------------------------------------------------------
  // Without any hypothesis: a row is the merge of its payloads, and a known workflow never changes
  // ---------------------------------------------------------------------------------------------

  predicate IsForJob(d: Delivery, id: int) {
    WellFormed(d) && d.JobDelivery? && d.job.id == Some(id)
  }

  /** The payloads of one job, in processing order. */
  function JobPayloads(ds: seq<Delivery>, id: int): seq<Payload> {
    if ds == [] then []
    else
      var d := ds[|ds| - 1];
      JobPayloads(ds[..|ds| - 1], id) + if IsForJob(d, id) then [JobPayload(d.job)] else []
  }

  /** The run attempt a delivery writes. */
  function AttemptKey(d: Delivery): (int, int)
    requires WellFormed(d)
  {
    if d.JobDelivery? then (d.job.runId, AttemptOf(d.job.runAttempt)) else (d.run.id.value, AttemptOf(d.run.runAttempt))
  }

  function AttemptPayload(d: Delivery): Payload {
    if d.JobDelivery? then StubPayload(d.job) else RunPayload(d.run)
  }

  /** The payloads of one run attempt: its run events, and a stub for each of its job events. */
  function RunPayloads(ds: seq<Delivery>, key: (int, int)): seq<Payload> {
    if ds == [] then []
    else
      var d := ds[|ds| - 1];
      RunPayloads(ds[..|ds| - 1], key) + if WellFormed(d) && AttemptKey(d) == key then [AttemptPayload(d)] else []
  }

  lemma MergeOneMore(before: seq<Payload>, p: Payload)
    ensures MergeAll(before + [p]) == if before == [] then p else NeverRegress(p, MergeAll(before))
  {
    assert (before + [p])[..|before|] == before;
  }

  lemma {:induction false} JobRowIsTheMerge(settings: Settings, ds: seq<Delivery>, id: int)
    ensures var jobs := HandledAll(settings, EMPTY, ds).jobs;
            && (id in jobs <==> JobPayloads(ds, id) != [])
            && (id in jobs ==> jobs[id].progress == MergeAll(JobPayloads(ds, id)))
  {
    if ds != [] {
      var d := ds[|ds| - 1];
      JobRowIsTheMerge(settings, ds[..|ds| - 1], id);
      var before := JobPayloads(ds[..|ds| - 1], id);
      assert before + [] == before;
      if IsForJob(d, id) {
        MergeOneMore(before, JobPayload(d.job));
      }
    }
  }

  lemma {:induction false} RunRowIsTheMerge(settings: Settings, ds: seq<Delivery>, key: (int, int))
    ensures var runs := HandledAll(settings, EMPTY, ds).runs;
            && (key in runs <==> RunPayloads(ds, key) != [])
            && (key in runs ==> runs[key].progress == MergeAll(RunPayloads(ds, key)))
  {
    if ds != [] {
      var d := ds[|ds| - 1];
      RunRowIsTheMerge(settings, ds[..|ds| - 1], key);
      var before := RunPayloads(ds[..|ds| - 1], key);
      assert before + [] == before;
      MergeOneMore(before, AttemptPayload(d));
    }
  }

  /** With no hypothesis: a workflow once known on a run attempt or on a job is never replaced. */
  lemma {:induction false} KnownWorkflowsStay(settings: Settings, st: State, ds: seq<Delivery>)
    ensures var after := HandledAll(settings, st, ds);
            && (forall k :: k in st.runs && st.runs[k].workflowId.Some? ==>
                  k in after.runs && after.runs[k].workflowId == st.runs[k].workflowId)
            && (forall id :: id in st.jobs && st.jobs[id].workflowId.Some? ==>
                  id in after.jobs && after.jobs[id].workflowId == st.jobs[id].workflowId)
  {
    if ds != [] {
      KnownWorkflowsStay(settings, st, ds[..|ds| - 1]);
    }
  }

  lemma {:induction false} HandledInTwo(settings: Settings, st: State, ds: seq<Delivery>, es: seq<Delivery>)
    ensures HandledAll(settings, st, ds + es) == HandledAll(settings, HandledAll(settings, st, ds), es)
  {
    if es == [] {
      assert ds + es == ds;
    } else {
      HandledInTwo(settings, st, ds, es[..|es| - 1]);
      assert (ds + es)[..|ds + es| - 1] == ds + es[..|es| - 1];
    }
  }

  /** The fact tables do not depend on the events. */
  lemma {:induction false} FactsIgnoreEvents(settings: Settings, s: State, t: State, ds: seq<Delivery>)
    requires s.jobs == t.jobs && s.runs == t.runs
    ensures HandledAll(settings, s, ds).jobs == HandledAll(settings, t, ds).jobs
    ensures HandledAll(settings, s, ds).runs == HandledAll(settings, t, ds).runs
  {
    if ds != [] {
      FactsIgnoreEvents(settings, s, t, ds[..|ds| - 1]);
    }
  }

  // ---------------------------------------------------------------------------------------------
  // What the tables say about the set of deliveries
  // ---------------------------------------------------------------------------------------------

  lemma {:induction false} JobPayloadsOfTheSet(ds: seq<Delivery>, id: int, p: Payload)
    ensures p in JobPayloads(ds, id) <==> exists d :: d in ds && IsForJob(d, id) && JobPayload(d.job) == p
  {
    if ds != [] {
      JobPayloadsOfTheSet(ds[..|ds| - 1], id, p);
    }
  }

  lemma {:induction false} RunPayloadsOfTheSet(ds: seq<Delivery>, key: (int, int), p: Payload)
    ensures p in RunPayloads(ds, key) <==>
            exists d :: d in ds && WellFormed(d) && AttemptKey(d) == key && AttemptPayload(d) == p
  {
    if ds != [] {
      RunPayloadsOfTheSet(ds[..|ds| - 1], key, p);
    }
  }

  lemma SameFamilies(ds: seq<Delivery>, es: seq<Delivery>)
    requires Elements(ds) == Elements(es)
    ensures forall id :: Elements(JobPayloads(ds, id)) == Elements(JobPayloads(es, id))
    ensures forall key :: Elements(RunPayloads(ds, key)) == Elements(RunPayloads(es, key))
  {
    assert forall d :: d in ds <==> d in Elements(ds);
    assert forall d :: d in es <==> d in Elements(es);
    forall id, p
      ensures p in JobPayloads(ds, id) <==> p in JobPayloads(es, id)
    {
      JobPayloadsOfTheSet(ds, id, p);
      JobPayloadsOfTheSet(es, id, p);
    }
    forall key, p
      ensures p in RunPayloads(ds, key) <==> p in RunPayloads(es, key)
    {
      RunPayloadsOfTheSet(ds, key, p);
      RunPayloadsOfTheSet(es, key, p);
    }
  }

  lemma SameEmptiness(ps: seq<Payload>, qs: seq<Payload>)
    requires Elements(ps) == Elements(qs)
    ensures ps == [] <==> qs == []
  {
    assert ps != [] ==> ps[0] in Elements(ps);
    assert qs != [] ==> qs[0] in Elements(qs);
  }

  predicate SuppliesWorkflow(d: Delivery, runId: int) {
    WellFormed(d) && d.RunDelivery? && d.run.id == Some(runId) && SuppliedWorkflow(d.run, d.workflow).Some?
  }

  lemma {:induction false} KnowingRunsOfTheSet(settings: Settings, w: World, ds: seq<Delivery>, r: int)
    requires AllConsistent(w, ds)
    ensures r in KnowingRuns(HandledAll(settings, EMPTY, ds).runs) <==> exists d :: d in ds && SuppliesWorkflow(d, r)
  {
    if ds != [] {
      var d := ds[|ds| - 1];
      KnowingRunsOfTheSet(settings, w, ds[..|ds| - 1], r);
      EventsAreDerivedAlways(settings, w, ds[..|ds| - 1]);
      KnowingRunsOneMore(settings, w, HandledAll(settings, EMPTY, ds[..|ds| - 1]), d, r);
      assert forall e :: e in ds <==> e in ds[..|ds| - 1] || e == d;
    }
  }

  lemma KnowingRunsOneMore(settings: Settings, w: World, st: State, d: Delivery, r: int)
    requires Valid(w, st) && Consistent(w, d)
    ensures r in KnowingRuns(Handled(settings, st, d).runs) <==> r in KnowingRuns(st.runs) || SuppliesWorkflow(d, r)
  {
    if WellFormed(d) {
      if d.JobDelivery? {
        JobStepFacts(w, st, d.repoId.value, d.job.id.value, d.job);
      } else {
        RunStepRuns(w, st, d.repoId.value, d.run.id.value, d.run, d.workflow);
      }
    }
  }

  lemma CompletedIffDelivered(settings: Settings, ds: seq<Delivery>, id: int)
    ensures var jobs := HandledAll(settings, EMPTY, ds).jobs;
            (id in jobs && jobs[id].progress.status == Some(COMPLETED)) <==>
            exists p :: p in JobPayloads(ds, id) && p.status == Some(COMPLETED)
  {
    JobRowIsTheMerge(settings, ds, id);
    var ps := JobPayloads(ds, id);
    if ps != [] {
      MergeExplains(ps);
      var top :| IsTop(top, Elements(ps)) && top.status == MergeAll(ps).status;
      assert forall p :: p in ps ==> p in Elements(ps);
    }
  }

  /** One job in two final job tables: the same identity and workflow; the same row once it has
      completed, and before that whenever its payloads are dominated, which is exactly when their
      order cannot matter. */
  ghost predicate SameJob(s: Jobs, t: Jobs, family: set<Payload>, id: int) {
    && (id in s <==> id in t)
    && (id in s ==>
          && s[id].(progress := t[id].progress) == t[id]
          && (s[id].progress.status == Some(COMPLETED) || Dominated(family) ==> s[id] == t[id]))
  }

  ghost predicate SameRun(s: Runs, t: Runs, family: set<Payload>, key: (int, int)) {
    && (key in s <==> key in t)
    && (key in s ==>
          && s[key].repoId == t[key].repoId && s[key].headSha == t[key].headSha
          && (Dominated(family) ==> s[key].progress == t[key].progress))
    && RunWorkflowId(s, key.0) == RunWorkflowId(t, key.0)
  }

  lemma SameJobs(settings: Settings, w: World, ds: seq<Delivery>, es: seq<Delivery>, id: int)
    requires AllConsistent(w, ds) && AllConsistent(w, es) && Elements(ds) == Elements(es)
    ensures SameJob(HandledAll(settings, EMPTY, ds).jobs, HandledAll(settings, EMPTY, es).jobs,
                    Elements(JobPayloads(ds, id)), id)
  {
    var s, t := HandledAll(settings, EMPTY, ds), HandledAll(settings, EMPTY, es);
    SameFamilies(ds, es);
    var ps, qs := JobPayloads(ds, id), JobPayloads(es, id);
    assert Elements(ps) == Elements(qs);
    assert forall p :: p in ps <==> p in Elements(ps);
    assert forall p :: p in qs <==> p in Elements(qs);
    JobRowIsTheMerge(settings, ds, id);
    JobRowIsTheMerge(settings, es, id);
    SameEmptiness(ps, qs);
    if id in s.jobs {
      EventsAreDerivedAlways(settings, w, ds);
      EventsAreDerivedAlways(settings, w, es);
      KnowingRunsOfTheSet(settings, w, ds, s.jobs[id].runId);
      KnowingRunsOfTheSet(settings, w, es, s.jobs[id].runId);
      assert forall d :: d in ds <==> d in Elements(ds);
      assert forall d :: d in es <==> d in Elements(es);
      CompletedIffDelivered(settings, ds, id);
      CompletedIffDelivered(settings, es, id);
      if Dominated(Elements(ps)) {
        OrderIndependentIffDominated(Elements(ps));
      }
    }
  }

  lemma SameRuns(settings: Settings, w: World, ds: seq<Delivery>, es: seq<Delivery>, key: (int, int))
    requires AllConsistent(w, ds) && AllConsistent(w, es) && Elements(ds) == Elements(es)
    ensures SameRun(HandledAll(settings, EMPTY, ds).runs, HandledAll(settings, EMPTY, es).runs,
                    Elements(RunPayloads(ds, key)), key)
  {
    var s, t := HandledAll(settings, EMPTY, ds), HandledAll(settings, EMPTY, es);
    SameFamilies(ds, es);
    var ps, qs := RunPayloads(ds, key), RunPayloads(es, key);
    assert Elements(ps) == Elements(qs);
    assert forall p :: p in ps <==> p in Elements(ps);
    assert forall p :: p in qs <==> p in Elements(qs);
    RunRowIsTheMerge(settings, ds, key);
    RunRowIsTheMerge(settings, es, key);
    EventsAreDerivedAlways(settings, w, ds);
    EventsAreDerivedAlways(settings, w, es);
    KnowingRunsOfTheSet(settings, w, ds, key.0);
    KnowingRunsOfTheSet(settings, w, es, key.0);
    assert forall d :: d in ds <==> d in Elements(ds);
    assert forall d :: d in es <==> d in Elements(es);
    RunWorkflowIsTheRuns(w, s.runs, key.0);
    RunWorkflowIsTheRuns(w, t.runs, key.0);
    SameEmptiness(ps, qs);
    if Dominated(Elements(ps)) {
      OrderIndependentIffDominated(Elements(ps));
    }
  }

  /** Detection sees the same of a job in two job tables. */
  ghost predicate SeenAlike(settings: Settings, s: Jobs, t: Jobs, id: int) {
    && (id in s <==> id in t)
    && (id in s ==>
          && s[id].(progress := t[id].progress) == t[id]
          && (IsOpportunity(settings, s[id].progress) || IsOpportunity(settings, t[id].progress) ==> s[id] == t[id]))
  }

  lemma SameInView(settings: Settings, w: World, ds: seq<Delivery>, es: seq<Delivery>, id: int)
    requires AllConsistent(w, ds) && AllConsistent(w, es) && Elements(ds) == Elements(es)
    ensures SeenAlike(settings, HandledAll(settings, EMPTY, ds).jobs, HandledAll(settings, EMPTY, es).jobs, id)
  {
    var s, t := HandledAll(settings, EMPTY, ds), HandledAll(settings, EMPTY, es);
    SameJobs(settings, w, ds, es, id);
    SameJobs(settings, w, es, ds, id);
    EventsAreDerivedAlways(settings, w, ds);
    EventsAreDerivedAlways(settings, w, es);
    if id in ViewOf(settings, s.jobs).opportunities {
      OpportunitiesAreCompleted(settings, w, s, id);
    }
    if id in ViewOf(settings, t.jobs).opportunities {
      OpportunitiesAreCompleted(settings, w, t, id);
    }
  }

  lemma AlikeViews(settings: Settings, s: Jobs, t: Jobs)
    requires forall id :: SeenAlike(settings, s, t, id)
    ensures ViewOf(settings, s) == ViewOf(settings, t)
  {
    var v, v' := ViewOf(settings, s), ViewOf(settings, t);
    forall id
      ensures id in v.opportunities <==> id in v'.opportunities
      ensures id in v.opportunities && id in v'.opportunities ==> v.opportunities[id] == v'.opportunities[id]
      ensures id in v.workflows <==> id in v'.workflows
      ensures id in v.workflows && id in v'.workflows ==> v.workflows[id] == v'.workflows[id]
    {
      assert SeenAlike(settings, s, t, id);
    }
    assert v.opportunities == v'.opportunities;
    assert v.workflows == v'.workflows;
  }

  lemma SameView(settings: Settings, w: World, ds: seq<Delivery>, es: seq<Delivery>)
    requires AllConsistent(w, ds) && AllConsistent(w, es) && Elements(ds) == Elements(es)
    ensures ViewOf(settings, HandledAll(settings, EMPTY, ds).jobs) ==
            ViewOf(settings, HandledAll(settings, EMPTY, es).jobs)
  {
    var s, t := HandledAll(settings, EMPTY, ds).jobs, HandledAll(settings, EMPTY, es).jobs;
    forall id
      ensures SeenAlike(settings, s, t, id)
    {
      SameInView(settings, w, ds, es, id);
    }
    AlikeViews(settings, s, t);
  }

  /** Events that agree except that one may keep an older time where no derivation has one. */
  ghost predicate SameEvents(view: View, e: Events, f: Events) {
    && e.Keys == f.Keys
    && (forall k :: k in e ==> e[k].evidence == f[k].evidence && (Timely(view, k) ==> e[k] == f[k]))
  }

  /** Two sequences with the same deliveries, in any order and with any repetition, end with the same
      jobs, the same workflow of every run and the same events. */
  lemma OrderAndRepetitionDoNotMatter(settings: Settings, w: World, ds: seq<Delivery>, es: seq<Delivery>)
    requires AllConsistent(w, ds) && AllConsistent(w, es) && Elements(ds) == Elements(es)
    ensures var s, t := HandledAll(settings, EMPTY, ds), HandledAll(settings, EMPTY, es);
            && (forall id :: SameJob(s.jobs, t.jobs, Elements(JobPayloads(ds, id)), id))
            && (forall key :: SameRun(s.runs, t.runs, Elements(RunPayloads(ds, key)), key))
            && SameEvents(ViewOf(settings, s.jobs), s.events, t.events)
  {
    forall id {
      SameJobs(settings, w, ds, es, id);
    }
    forall key {
      SameRuns(settings, w, ds, es, key);
    }
    EventsAgree(settings, w, ds, es);
  }

  lemma EventsAgree(settings: Settings, w: World, ds: seq<Delivery>, es: seq<Delivery>)
    requires AllConsistent(w, ds) && AllConsistent(w, es) && Elements(ds) == Elements(es)
    ensures var s, t := HandledAll(settings, EMPTY, ds), HandledAll(settings, EMPTY, es);
            SameEvents(ViewOf(settings, s.jobs), s.events, t.events)
  {
    SameView(settings, w, ds, es);
    EventsAreDerivedAlways(settings, w, ds);
    EventsAreDerivedAlways(settings, w, es);
  }

  lemma TimedEventsAreEqual(view: View, e: Events, f: Events)
    requires Keyed(view.opportunities) && SameEvents(view, e, f)
    requires forall id :: id in view.opportunities ==> view.opportunities[id].completedAt.Some?
    ensures e == f
  {
    forall k | k in e
      ensures e[k] == f[k]
    {
      TimelyWhenTimesAreKnown(view, k);
    }
  }

  /** When every eligible job has a completion time the two event tables are equal outright. */
  lemma EventsConverge(settings: Settings, w: World, ds: seq<Delivery>, es: seq<Delivery>)
    requires AllConsistent(w, ds) && AllConsistent(w, es) && Elements(ds) == Elements(es)
    requires var opportunities := ViewOf(settings, HandledAll(settings, EMPTY, ds).jobs).opportunities;
             forall id :: id in opportunities ==> opportunities[id].completedAt.Some?
    ensures HandledAll(settings, EMPTY, ds).events == HandledAll(settings, EMPTY, es).events
  {
    var s, t := HandledAll(settings, EMPTY, ds), HandledAll(settings, EMPTY, es);
    EventsAgree(settings, w, ds, es);
    EventsAreDerivedAlways(settings, w, ds);
    TimedEventsAreEqual(ViewOf(settings, s.jobs), s.events, t.events);
  }
}
