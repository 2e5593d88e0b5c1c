/**
  The workflow column of one run attempt, which unlike the workflow of the run can depend on the order of
  the deliveries: exactly when it does not.
 */
module Attempts {
  import opened Wrappers
  import opened Merge
  import opened Detection
  import opened Handlers
  import opened Convergence
  import opened Order

  predicate Writes(d: Delivery, key: (int, int)) {
    WellFormed(d) && AttemptKey(d) == key
  }

  /** The run event of the attempt itself, as opposed to the stub a job event writes. */
  predicate OwnRunEvent(d: Delivery, key: (int, int)) {
    Writes(d, key) && d.RunDelivery?
  }

  function AttemptWorkflow(settings: Settings, ds: seq<Delivery>, key: (int, int)): Option<int> {
    var runs := HandledAll(settings, EMPTY, ds).runs;
    if key in runs then runs[key].workflowId else None
  }

  // ---------------------------------------------------------------------------------------------
  // With no hypothesis: what one delivery does to the column
  // ---------------------------------------------------------------------------------------------

  predicate Knows(runs: Runs, key: (int, int)) {
    key in runs && runs[key].workflowId.Some?
  }

  /** After a run event that finds or brings the workflow every attempt of the run knows it. */
  lemma RunEventFills(settings: Settings, st: State, d: Delivery, key: (int, int))
    requires WellFormed(d) && d.RunDelivery? && d.run.id == Some(key.0)
    requires key in st.runs || AttemptKey(d) == key
    requires SuppliesWorkflow(d, key.0) || KnowingAttempts(st.runs, key.0) != {}
    ensures Knows(Handled(settings, st, d).runs, key)
  {
    var runs := RunsAfterRun(st.runs, d.repoId.value, key.0, d.run, d.workflow);
    var attempt := AttemptOf(d.run.runAttempt);
    if SuppliesWorkflow(d, key.0) {
      assert (key.0, attempt) in runs;
      assert attempt in KnowingAttempts(runs, key.0);
    } else {
      var a := Pick(KnowingAttempts(st.runs, key.0));
      assert (key.0, a) in runs;
      assert a in KnowingAttempts(runs, key.0);
    }
  }

  lemma KnowledgeStays(settings: Settings, st: State, d: Delivery, key: (int, int))
    ensures Knows(st.runs, key) ==> Knows(Handled(settings, st, d).runs, key)
    ensures key in st.runs ==> key in Handled(settings, st, d).runs
  {
  }

  /** Once the attempt has a row, a run event that brings the workflow fills it. */
  lemma {:induction false} SupplierFills(settings: Settings, st: State, ds: seq<Delivery>, key: (int, int))
    requires key in st.runs && exists d :: d in ds && SuppliesWorkflow(d, key.0)
    ensures Knows(HandledAll(settings, st, ds).runs, key)
  {
    var before, last := ds[..|ds| - 1], ds[|ds| - 1];
    RowsStay(settings, st, before, key);
    KnowledgeStays(settings, HandledAll(settings, st, before), last, key);
    if SuppliesWorkflow(last, key.0) {
      RunEventFills(settings, HandledAll(settings, st, before), last, key);
    } else {
      assert exists d :: d in before && SuppliesWorkflow(d, key.0);
      SupplierFills(settings, st, before, key);
    }
  }

  lemma {:induction false} RowsStay(settings: Settings, st: State, ds: seq<Delivery>, key: (int, int))
    requires key in st.runs
    ensures key in HandledAll(settings, st, ds).runs
  {
    if ds != [] {
      RowsStay(settings, st, ds[..|ds| - 1], key);
    }
  }

  /** Job events alone never bring the workflow to an attempt. */
  lemma {:induction false} JobEventsLeaveItUnknown(settings: Settings, st: State, ds: seq<Delivery>, key: (int, int))
    requires !Knows(st.runs, key) && forall d :: d in ds ==> d.JobDelivery?
    ensures !Knows(HandledAll(settings, st, ds).runs, key)
  {
    if ds != [] {
      JobEventsLeaveItUnknown(settings, st, ds[..|ds| - 1], key);
    }
  }

  lemma {:induction false} JobEventStubs(settings: Settings, st: State, ds: seq<Delivery>, key: (int, int))
    requires exists d :: d in ds && Writes(d, key)
    ensures key in HandledAll(settings, st, ds).runs
  {
    var before, last := ds[..|ds| - 1], ds[|ds| - 1];
    if !Writes(last, key) {
      assert exists d :: d in before && Writes(d, key);
      JobEventStubs(settings, st, before, key);
    }
  }

  lemma {:induction false} OthersDoNotWrite(settings: Settings, st: State, ds: seq<Delivery>, key: (int, int))
    requires key !in st.runs && forall d :: d in ds ==> !Writes(d, key)
    ensures key !in HandledAll(settings, st, ds).runs
  {
    if ds != [] {
      OthersDoNotWrite(settings, st, ds[..|ds| - 1], key);
      assert !Writes(ds[|ds| - 1], key);
    }
  }

  // ---------------------------------------------------------------------------------------------
  // The attempt's own run event settles it
  // ---------------------------------------------------------------------------------------------

  lemma {:induction false} OwnRunEventSettlesIt(settings: Settings, w: World, ds: seq<Delivery>, key: (int, int))
    requires AllConsistent(w, ds) && exists d :: d in ds && OwnRunEvent(d, key)
    requires exists d :: d in ds && SuppliesWorkflow(d, key.0)
    ensures Knows(HandledAll(settings, EMPTY, ds).runs, key)
  {
    var before, last := ds[..|ds| - 1], ds[|ds| - 1];
    var st := HandledAll(settings, EMPTY, before);
    var own :| own in ds && OwnRunEvent(own, key);
    var supplier :| supplier in ds && SuppliesWorkflow(supplier, key.0);
    KnowledgeStays(settings, st, last, key);
    if own in before && supplier in before {
      OwnRunEventSettlesIt(settings, w, before, key);
    } else if own in before {
      JobEventStubs(settings, EMPTY, before, key);
      RunEventFills(settings, st, last, key);
    } else {
      if supplier in before {
        KnowingRunsOfTheSet(settings, w, before, key.0);
        assert key.0 in KnowingRuns(st.runs);
      }
      RunEventFills(settings, st, last, key);
    }
  }

  // ---------------------------------------------------------------------------------------------
  // Two orders
  // ---------------------------------------------------------------------------------------------

  function JobEvents(ds: seq<Delivery>): seq<Delivery> {
    if ds == [] then [] else (if ds[0].JobDelivery? then [ds[0]] else []) + JobEvents(ds[1..])
  }

  function RunEvents(ds: seq<Delivery>): seq<Delivery> {
    if ds == [] then [] else (if ds[0].RunDelivery? then [ds[0]] else []) + RunEvents(ds[1..])
  }

  lemma {:induction false} JobAndRunEvents(ds: seq<Delivery>, d: Delivery)
    ensures d in JobEvents(ds) <==> d in ds && d.JobDelivery?
    ensures d in RunEvents(ds) <==> d in ds && d.RunDelivery?
  {
    if ds != [] {
      JobAndRunEvents(ds[1..], d);
    }
  }

  lemma SplitInTwo(ds: seq<Delivery>)
    ensures Elements(RunEvents(ds) + JobEvents(ds)) == Elements(ds) == Elements(JobEvents(ds) + RunEvents(ds))
    ensures forall d :: d in JobEvents(ds) <==> d in ds && d.JobDelivery?
    ensures forall d :: d in RunEvents(ds) <==> d in ds && d.RunDelivery?
  {
    forall d {
      JobAndRunEvents(ds, d);
    }
  }

  /** Run events first: the attempt is stubbed afterwards and keeps an unknown workflow. */
  lemma RunEventsFirst(settings: Settings, ds: seq<Delivery>, key: (int, int))
    requires forall d :: d in ds ==> !OwnRunEvent(d, key)
    ensures AttemptWorkflow(settings, RunEvents(ds) + JobEvents(ds), key) == None
  {
    SplitInTwo(ds);
    OthersDoNotWrite(settings, EMPTY, RunEvents(ds), key);
    JobEventsLeaveItUnknown(settings, HandledAll(settings, EMPTY, RunEvents(ds)), JobEvents(ds), key);
    HandledInTwo(settings, EMPTY, RunEvents(ds), JobEvents(ds));
  }

  /** Job events first: the stub is there when the workflow arrives. */
  lemma JobEventsFirst(settings: Settings, ds: seq<Delivery>, key: (int, int))
    requires exists d :: d in ds && Writes(d, key) && d.JobDelivery?
    requires exists d :: d in ds && SuppliesWorkflow(d, key.0)
    ensures AttemptWorkflow(settings, JobEvents(ds) + RunEvents(ds), key).Some?
  {
    SplitInTwo(ds);
    var stub :| stub in ds && Writes(stub, key) && stub.JobDelivery?;
    assert stub in JobEvents(ds);
    JobEventStubs(settings, EMPTY, JobEvents(ds), key);
    var supplier :| supplier in ds && SuppliesWorkflow(supplier, key.0);
    assert supplier in RunEvents(ds);
    SupplierFills(settings, HandledAll(settings, EMPTY, JobEvents(ds)), RunEvents(ds), key);
    HandledInTwo(settings, EMPTY, JobEvents(ds), RunEvents(ds));
  }

  // ---------------------------------------------------------------------------------------------
  // Exactly when the order does not matter
  // ---------------------------------------------------------------------------------------------

  ghost predicate OrderFree(settings: Settings, ds: seq<Delivery>, key: (int, int)) {
    forall es :: Elements(es) == Elements(ds) ==>
      AttemptWorkflow(settings, es, key) == AttemptWorkflow(settings, ds, key)
  }

  /** Nothing writes the attempt, or nothing knows the run's workflow, or the attempt's own run event is
      among the deliveries. */
  predicate Settled(ds: seq<Delivery>, key: (int, int)) {
    || (forall d :: d in ds ==> !Writes(d, key))
    || (forall d :: d in ds ==> !SuppliesWorkflow(d, key.0))
    || (exists d :: d in ds && OwnRunEvent(d, key))
  }

  /** What the column then holds: the run's workflow, if the attempt's own run event and some event that
      brings the workflow are among the deliveries. */
  ghost function SettledWorkflow(w: World, ds: seq<Delivery>, key: (int, int)): Option<int> {
    if (exists d :: d in ds && OwnRunEvent(d, key)) && (exists d :: d in ds && SuppliesWorkflow(d, key.0))
    then Some(w.workflowOf(key.0)) else None
  }

  lemma SettledValue(settings: Settings, w: World, ds: seq<Delivery>, key: (int, int))
    requires AllConsistent(w, ds) && Settled(ds, key)
    ensures AttemptWorkflow(settings, ds, key) == SettledWorkflow(w, ds, key)
  {
    var runs := HandledAll(settings, EMPTY, ds).runs;
    EventsAreDerivedAlways(settings, w, ds);
    if forall d :: d in ds ==> !Writes(d, key) {
      OthersDoNotWrite(settings, EMPTY, ds, key);
    } else if forall d :: d in ds ==> !SuppliesWorkflow(d, key.0) {
      KnowingRunsOfTheSet(settings, w, ds, key.0);
      assert Knows(runs, key) ==> key.1 in KnowingAttempts(runs, key.0);
    } else {
      OwnRunEventSettlesIt(settings, w, ds, key);
    }
  }

  lemma SettledIsOrderFree(settings: Settings, w: World, ds: seq<Delivery>, key: (int, int))
    requires AllConsistent(w, ds) && Settled(ds, key)
    ensures OrderFree(settings, ds, key)
  {
    SettledValue(settings, w, ds, key);
    forall es | Elements(es) == Elements(ds)
      ensures AttemptWorkflow(settings, es, key) == AttemptWorkflow(settings, ds, key)
    {
      assert forall d :: d in ds <==> d in Elements(ds);
      assert forall d :: d in es <==> d in Elements(es);
      SettledValue(settings, w, es, key);
    }
  }

  lemma UnsettledIsNot(settings: Settings, ds: seq<Delivery>, key: (int, int))
    requires !Settled(ds, key)
    ensures !OrderFree(settings, ds, key)
  {
    SplitInTwo(ds);
    RunEventsFirst(settings, ds, key);
    JobEventsFirst(settings, ds, key);
  }

  /** For consistent deliveries the workflow column of an attempt is the same for every order and
      repetition if and only if nothing writes the attempt, no run event brings the run's workflow, or the
      attempt has a run event of its own. */
  lemma AttemptWorkflowIsOrderFreeIff(settings: Settings, w: World, ds: seq<Delivery>, key: (int, int))
    requires AllConsistent(w, ds)
    ensures OrderFree(settings, ds, key) <==> Settled(ds, key)
    ensures Settled(ds, key) ==> AttemptWorkflow(settings, ds, key) == SettledWorkflow(w, ds, key)
  {
    if Settled(ds, key) {
      SettledIsOrderFree(settings, w, ds, key);
      SettledValue(settings, w, ds, key);
    } else {
      UnsettledIsNot(settings, ds, key);
    }
  }

  // ---------------------------------------------------------------------------------------------
  // One pair of deliveries
  // ---------------------------------------------------------------------------------------------

  /** A job event of attempt 2 of run 5, and a run event of attempt 1 that knows the workflow. */
  const STUB_JOB :=
    JobBody(Some(7), 5, Some(2), "c0ffee", None, "test", Some("queued"), None, None, None, None, None, [])
  const KNOWING_RUN :=
    RunBody(Some(5), Some(1), "c0ffee", Some(9), None, None, Some(IN_PROGRESS), None, None, None, None)

  /** The workflow column of a single attempt does depend on the order: an attempt that a job event
      stubs after another attempt's run event keeps NULL, and the query over all attempts is what
      does not. */
  lemma AttemptWorkflowDependsOnOrder(settings: Settings)
    ensures var job, run := JobDelivery(Some(1), Some(1), STUB_JOB), RunDelivery(Some(1), Some(1), KNOWING_RUN, None);
            var s := Handled(settings, Handled(settings, EMPTY, run), job).runs;
            var t := Handled(settings, Handled(settings, EMPTY, job), run).runs;
            && (5, 2) in s && (5, 2) in t
            && s[(5, 2)].workflowId == None && t[(5, 2)].workflowId == Some(9)
            && RunWorkflowId(s, 5) == RunWorkflowId(t, 5) == Some(9)
  {
    var job, run := JobDelivery(Some(1), Some(1), STUB_JOB), RunDelivery(Some(1), Some(1), KNOWING_RUN, None);
    RunEventFirst(settings, run, job);
    JobEventFirst(settings, run, job);
  }

  lemma RunEventFirst(settings: Settings, run: Delivery, job: Delivery)
    requires run == RunDelivery(Some(1), Some(1), KNOWING_RUN, None) && job == JobDelivery(Some(1), Some(1), STUB_JOB)
    ensures var s := Handled(settings, Handled(settings, EMPTY, run), job).runs;
            (5, 2) in s && s[(5, 2)].workflowId == None && RunWorkflowId(s, 5) == Some(9)
  {
    var known := RunsAfterRun(map[], 1, 5, KNOWING_RUN, None);
    assert known[(5, 1)].workflowId == Some(9);
    OnlyFirstAttemptKnows(known);
    assert Handled(settings, EMPTY, run).runs == PropagatedRuns(known, 5, 9);
    OnlyFirstAttemptKnows(RunsAfterJob(PropagatedRuns(known, 5, 9), 1, STUB_JOB));
  }

  lemma JobEventFirst(settings: Settings, run: Delivery, job: Delivery)
    requires run == RunDelivery(Some(1), Some(1), KNOWING_RUN, None) && job == JobDelivery(Some(1), Some(1), STUB_JOB)
    ensures var t := Handled(settings, Handled(settings, EMPTY, job), run).runs;
            (5, 2) in t && t[(5, 2)].workflowId == Some(9) && RunWorkflowId(t, 5) == Some(9)
  {
    var stub := RunsAfterJob(map[], 1, STUB_JOB);
    assert Handled(settings, EMPTY, job).runs == stub;
    var joined := RunsAfterRun(stub, 1, 5, KNOWING_RUN, None);
    OnlyFirstAttemptKnows(joined);
    var t := PropagatedRuns(joined, 5, 9);
    assert Handled(settings, Handled(settings, EMPTY, job), run).runs == t;
    assert 1 in KnowingAttempts(t, 5) by {
      assert (5, 1) in t;
    }
  }

  lemma OnlyFirstAttemptKnows(runs: Runs)
    requires (5, 1) in runs && runs[(5, 1)].workflowId == Some(9)
    requires forall k :: k in runs && k != (5, 1) ==> runs[k].workflowId.None?
    ensures RunWorkflowId(runs, 5) == Some(9)
  {
    assert (5, 1).1 in KnowingAttempts(runs, 5);
    assert KnowingAttempts(runs, 5) == {1};
  }
}
