/**
  What the two signals mean for a set of opportunities, independently of how they are evaluated, and
  why events that are only ever upserted stay right while opportunities keep arriving.
 */
module Signals {
  import opened Wrappers
  import opened Merge
  import opened Detection

  function Group(view: View, key: EventKey): map<int, Opportunity> {
    match key
    case Rerun(repoId, runId, name) => InRun(view, repoId, runId, name)
    case SameCommit(repoId, workflowId, name, headSha) => OnCommit(view, repoId, workflowId, name, headSha)
  }

  ghost predicate Keyed(group: map<int, Opportunity>) {
    forall id :: id in group ==> group[id].jobId == id
  }

  // ---------------------------------------------------------------------------------------------
  // The query order
  // ---------------------------------------------------------------------------------------------

  lemma {:induction false} OrderedHasTheGroup(group: map<int, Opportunity>)
    requires Keyed(group)
    ensures forall o :: o in Ordered(group) <==> o.jobId in group && group[o.jobId] == o
    decreases |group|
  {
    if group != map[] {
      var i := First(group);
      assert group == (group - {i})[i := group[i]];
      OrderedHasTheGroup(group - {i});
    }
  }

  ghost predicate Precedes(a: Opportunity, b: Opportunity) {
    Before(a, a.jobId, b, b.jobId)
  }

  ghost predicate InQueryOrder(s: seq<Opportunity>) {
    forall i, j :: 0 <= i < j < |s| ==> Precedes(s[i], s[j])
  }

  lemma {:induction false} OrderedIsSorted(group: map<int, Opportunity>)
    requires Keyed(group)
    ensures InQueryOrder(Ordered(group))
    decreases |group|
  {
    if group != map[] {
      var i := First(group);
      assert group == (group - {i})[i := group[i]];
      OrderedIsSorted(group - {i});
      OrderedHasTheGroup(group - {i});
      var s := Ordered(group);
      forall j | 1 <= j < |s|
        ensures Precedes(s[0], s[j])
      {
        assert s[j] in Ordered(group - {i});
      }
    }
  }

  lemma {:induction false} SortedIdsAreTheSet(ids: set<int>)
    ensures forall x :: x in SortedIds(ids) <==> x in ids
    decreases |ids|
  {
    if ids != {} {
      SortedIdsAreTheSet(ids - {Least(ids)});
    }
  }

  lemma {:induction false} SortedIdsAscend(ids: set<int>)
    ensures forall i, j :: 0 <= i < j < |SortedIds(ids)| ==> SortedIds(ids)[i] < SortedIds(ids)[j]
    decreases |ids|
  {
    if ids != {} {
      var i := Least(ids);
      var rest := SortedIds(ids - {i});
      SortedIdsAscend(ids - {i});
      SortedIdsAreTheSet(ids - {i});
      assert SortedIds(ids) == [i] + rest;
      assert forall k :: 0 <= k < |rest| ==> rest[k] in rest;
    }
  }

  // ---------------------------------------------------------------------------------------------
  // Signal A
  // ---------------------------------------------------------------------------------------------

  /** A recovery pair is a failure whose next opportunity succeeded. */
  lemma {:induction false} RecoveriesAreNeighbours(attempts: seq<Opportunity>, f: Opportunity, s: Opportunity)
    ensures (f, s) in Recoveries(attempts) <==>
            exists p :: 0 <= p < |attempts| - 1 && attempts[p] == f && attempts[p + 1] == s && f.failed && !s.failed
  {
    if |attempts| >= 2 {
      var rest := attempts[1..];
      RecoveriesAreNeighbours(rest, f, s);
      if p :| 0 <= p < |rest| - 1 && rest[p] == f && rest[p + 1] == s {
        assert attempts[p + 1] == f && attempts[p + 2] == s;
      }
      forall p | 0 <= p < |attempts| - 1 && attempts[p] == f && attempts[p + 1] == s && f.failed && !s.failed
        ensures (f, s) in Recoveries(attempts)
      {
        if p > 0 {
          assert rest[p - 1] == f && rest[p - 1 + 1] == s;
        }
      }
    }
  }

  /** Adjacent recoveries exist exactly when some failure precedes some success, however far apart: no
      opportunity in between can hide a recovery. */
  lemma {:induction false} RecoveryIff(attempts: seq<Opportunity>)
    ensures Recoveries(attempts) != [] <==>
            exists i, j :: 0 <= i < j < |attempts| && attempts[i].failed && !attempts[j].failed
  {
    if |attempts| >= 2 {
      var rest := attempts[1..];
      RecoveryIff(rest);
      if i, j :| 0 <= i < j < |rest| && rest[i].failed && !rest[j].failed {
        assert attempts[i + 1].failed && !attempts[j + 1].failed;
      }
      if Recoveries(attempts) == [] {
        forall i, j | 0 <= i < j < |attempts|
          ensures !(attempts[i].failed && !attempts[j].failed)
        {
          if i == 0 && j > 1 {
            assert rest[0] == attempts[1] && rest[j - 1] == attempts[j];
          } else if i > 0 {
            assert rest[i - 1] == attempts[i] && rest[j - 1] == attempts[j];
          }
        }
      }
    }
  }

  /** The evidence of Signal A names exactly the failures recovered by their next opportunity, and the
      opportunities that recovered them. */
  lemma RerunEvidenceNamesThePairs(attempts: seq<Opportunity>, id: int)
    requires Recoveries(attempts) != []
    ensures id in RerunEvent(attempts).evidence.jobIds <==>
            exists p :: 0 <= p < |attempts| - 1 && attempts[p].failed && !attempts[p + 1].failed &&
                        (attempts[p].jobId == id || attempts[p + 1].jobId == id)
  {
    var pairs := Recoveries(attempts);
    var ids := (set pair | pair in pairs :: pair.0.jobId) + (set pair | pair in pairs :: pair.1.jobId);
    SortedIdsAreTheSet(ids);
    if id in ids {
      var pair :| pair in pairs && (pair.0.jobId == id || pair.1.jobId == id);
      RecoveriesAreNeighbours(attempts, pair.0, pair.1);
    }
    forall p | 0 <= p < |attempts| - 1 && attempts[p].failed && !attempts[p + 1].failed &&
               (attempts[p].jobId == id || attempts[p + 1].jobId == id)
      ensures id in ids
    {
      RecoveriesAreNeighbours(attempts, attempts[p], attempts[p + 1]);
      assert (attempts[p], attempts[p + 1]) in pairs;
    }
  }

  // ---------------------------------------------------------------------------------------------
  // When a signal fires, and what it says
  // ---------------------------------------------------------------------------------------------

  ghost predicate Fires(view: View, key: EventKey) {
    var runs := Ordered(Group(view, key));
    if key.Rerun? then Recoveries(runs) != [] else Disagree(runs)
  }

  /** The event a fresh derivation from the facts gives a group. */
  function EventFor(view: View, key: EventKey): FlakeEvent
    requires Fires(view, key)
  {
    var runs := Ordered(Group(view, key));
    if key.Rerun? then RerunEvent(runs) else CommitEvent(runs)
  }

  /** Signal A with its order, Signal B without: a failed and a successful opportunity i and j. */
  ghost predicate Witness(group: map<int, Opportunity>, ordered: bool, i: int, j: int) {
    && i in group && j in group && group[i].failed && !group[j].failed
    && (ordered ==> Before(group[i], i, group[j], j))
  }

  /** The signals as the design words them: a failure and a success on unchanged code, for Signal A in
      that order. */
  lemma FiresIff(view: View, key: EventKey)
    requires Keyed(view.opportunities)
    ensures Fires(view, key) <==> exists i, j :: Witness(Group(view, key), key.Rerun?, i, j)
  {
    hide Witness, Fires;
    if Fires(view, key) {
      FiresHasAWitness(view, key);
    }
    if i, j :| Witness(Group(view, key), key.Rerun?, i, j) {
      WitnessFires(view, key, i, j);
    }
  }

  lemma FiresHasAWitness(view: View, key: EventKey)
    requires Keyed(view.opportunities) && Fires(view, key)
    ensures exists i, j :: Witness(Group(view, key), key.Rerun?, i, j)
  {
    var group := Group(view, key);
    var runs := Ordered(group);
    OrderedHasTheGroup(group);
    OrderedIsSorted(group);
    RecoveryIff(runs);
    if key.Rerun? {
      var p, q :| 0 <= p < q < |runs| && runs[p].failed && !runs[q].failed;
      assert runs[p] in runs && runs[q] in runs;
      assert Precedes(runs[p], runs[q]);
      assert Witness(group, true, runs[p].jobId, runs[q].jobId);
    } else {
      var f :| f in runs && f.failed;
      var s :| s in runs && !s.failed;
      assert Witness(group, false, f.jobId, s.jobId);
    }
  }

  lemma WitnessFires(view: View, key: EventKey, i: int, j: int)
    requires Keyed(view.opportunities) && Witness(Group(view, key), key.Rerun?, i, j)
    ensures Fires(view, key)
  {
    hide Ordered, Recoveries;
    var group := Group(view, key);
    var runs := Ordered(group);
    OrderedHasTheGroup(group);
    assert group[i] in runs && group[j] in runs;
    if key.Rerun? {
      OrderedIsSorted(group);
      RecoveryIff(runs);
      InOrder(runs, group[i], group[j]);
    }
  }

  /** In the query order, what precedes comes first. */
  lemma InOrder(runs: seq<Opportunity>, a: Opportunity, b: Opportunity)
    requires InQueryOrder(runs) && a in runs && b in runs && Precedes(a, b)
    ensures exists p, q :: 0 <= p < q < |runs| && runs[p] == a && runs[q] == b
  {
    var p :| 0 <= p < |runs| && runs[p] == a;
    var q :| 0 <= q < |runs| && runs[q] == b;
    assert q < p ==> Precedes(runs[q], runs[p]);
  }

  /** The evidence of Signal B names exactly the opportunities of the commit, ascending, and counts the
      distinct runs they belong to. */
  lemma CommitEvidenceNamesTheGroup(view: View, key: EventKey)
    requires Keyed(view.opportunities) && key.SameCommit? && Fires(view, key)
    ensures var group, evidence := Group(view, key), EventFor(view, key).evidence;
            && evidence.CommitEvidence?
            && (forall id :: id in evidence.jobIds <==> id in group)
            && (forall i, j :: 0 <= i < j < |evidence.jobIds| ==> evidence.jobIds[i] < evidence.jobIds[j])
            && evidence.runs == |set id | id in group :: group[id].runId|
  {
    var group := Group(view, key);
    var runs := Ordered(group);
    OrderedHasTheGroup(group);
    var ids := set run | run in runs :: run.jobId;
    SortedIdsAreTheSet(ids);
    SortedIdsAscend(ids);
    forall id | id in group
      ensures id in ids
    {
      assert group[id] in runs;
    }
    var distinct, expected := set run | run in runs :: run.runId, set id | id in group :: group[id].runId;
    forall r
      ensures r in distinct <==> r in expected
    {
      if r in expected {
        var id :| id in group && group[id].runId == r;
        assert group[id] in runs;
      }
    }
    assert distinct == expected;
  }

  /** Whatever an event names was an opportunity of its group. */
  lemma EvidenceIsEligible(view: View, key: EventKey, id: int)
    requires Keyed(view.opportunities) && Fires(view, key) && id in EventFor(view, key).evidence.jobIds
    ensures id in Group(view, key) && id in view.opportunities
  {
    var runs := Ordered(Group(view, key));
    OrderedHasTheGroup(Group(view, key));
    if key.Rerun? {
      RerunEvidenceNamesThePairs(runs, id);
      var p :| 0 <= p < |runs| - 1 && (runs[p].jobId == id || runs[p + 1].jobId == id);
      assert runs[p] in runs && runs[p + 1] in runs;
    } else {
      CommitEvidenceNamesTheGroup(view, key);
    }
  }

  /** Every opportunity and every known workflow of v is still there, unchanged, in w. */
  ghost predicate Extends(v: View, w: View) {
    && Keyed(v.opportunities) && Keyed(w.opportunities)
    && (forall id :: id in v.opportunities ==> id in w.opportunities && w.opportunities[id] == v.opportunities[id])
    && (forall id :: id in v.workflows ==> id in w.workflows && w.workflows[id] == v.workflows[id])
  }

  /** A signal once fired keeps firing whatever further opportunities and workflows become known. */
  lemma FiresIsMonotone(v: View, w: View, key: EventKey)
    requires Extends(v, w) && Fires(v, key)
    ensures Fires(w, key)
  {
    FiresIff(v, key);
    FiresIff(w, key);
    var i, j :| Witness(Group(v, key), key.Rerun?, i, j);
    assert Witness(Group(w, key), key.Rerun?, i, j);
  }

  /** A group changes only by a new opportunity or a newly known workflow of one of its members. */
  lemma SameGroup(v: View, w: View, key: EventKey)
    requires Extends(v, w)
    requires forall i :: i in Group(w, key) ==> i in v.opportunities && (i in w.workflows ==> i in v.workflows)
    ensures Group(v, key) == Group(w, key)
  {
    var g, h := Group(v, key), Group(w, key);
    forall i
      ensures i in g <==> i in h
      ensures i in g ==> g[i] == h[i]
    {
    }
    assert g == h;
  }

  // ---------------------------------------------------------------------------------------------
  // The time of an event
  // ---------------------------------------------------------------------------------------------

  /** Some part of the group would give the event a time. */
  ghost predicate HasTime(view: View, key: EventKey) {
    exists i, j :: TimedWitness(Group(view, key), key.Rerun?, i, j)
  }

  ghost predicate TimedWitness(group: map<int, Opportunity>, ordered: bool, i: int, j: int) {
    if ordered then Witness(group, true, i, j) && group[j].completedAt.Some?
    else i in group && j in group && group[j].completedAt.Some?
  }

  lemma HasTimeIsMonotone(v: View, w: View, key: EventKey)
    requires Extends(v, w) && HasTime(v, key)
    ensures HasTime(w, key)
  {
    var i, j :| TimedWitness(Group(v, key), key.Rerun?, i, j);
    assert TimedWitness(Group(w, key), key.Rerun?, i, j);
  }

  lemma {:induction false} LatestTimeIff(runs: seq<Opportunity>)
    ensures LatestTime(runs).Some? <==> exists o :: o in runs && o.completedAt.Some?
    ensures LatestTime(runs).Some? ==>
              && (exists o :: o in runs && o.completedAt == LatestTime(runs))
              && (forall o :: o in runs && o.completedAt.Some? ==> o.completedAt.value <= LatestTime(runs).value)
  {
    if runs != [] {
      LatestTimeIff(runs[1..]);
    }
  }

  /** A derived time comes from the group; for Signal B the converse holds too. */
  lemma DerivedTime(view: View, key: EventKey)
    requires Keyed(view.opportunities) && Fires(view, key)
    ensures EventFor(view, key).occurredAt.Some? ==> HasTime(view, key)
    ensures key.SameCommit? && HasTime(view, key) ==> EventFor(view, key).occurredAt.Some?
  {
    var group := Group(view, key);
    var runs := Ordered(group);
    OrderedHasTheGroup(group);
    if key.Rerun? {
      OrderedIsSorted(group);
      var pairs := Recoveries(runs);
      var last := pairs[|pairs| - 1];
      assert last in pairs;
      RecoveriesAreNeighbours(runs, last.0, last.1);
      var p :| 0 <= p < |runs| - 1 && runs[p] == last.0 && runs[p + 1] == last.1 && last.0.failed && !last.1.failed;
      assert runs[p] in runs && runs[p + 1] in runs;
      assert Precedes(runs[p], runs[p + 1]);
      assert Witness(group, true, last.0.jobId, last.1.jobId);
      if last.1.completedAt.Some? {
        assert TimedWitness(group, true, last.0.jobId, last.1.jobId);
      }
    } else {
      LatestTimeIff(runs);
      if EventFor(view, key).occurredAt.Some? {
        var o :| o in runs && o.completedAt.Some?;
        assert TimedWitness(group, false, o.jobId, o.jobId);
      }
      if HasTime(view, key) {
        var i, j :| TimedWitness(group, false, i, j);
        assert group[j] in runs;
      }
    }
  }

  /** The derived time cannot be masked by an older one: it is known, or nothing in the group has one. */
  ghost predicate Timely(view: View, key: EventKey) {
    Fires(view, key) ==> EventFor(view, key).occurredAt.Some? || !HasTime(view, key)
  }

  lemma TimelyWhenTimesAreKnown(view: View, key: EventKey)
    requires Keyed(view.opportunities)
    requires key.SameCommit? || forall id :: id in Group(view, key) ==> Group(view, key)[id].completedAt.Some?
    ensures Timely(view, key)
  {
    if Fires(view, key) {
      DerivedTime(view, key);
      var runs := Ordered(Group(view, key));
      OrderedHasTheGroup(Group(view, key));
      if key.Rerun? {
        var pairs := Recoveries(runs);
        var last := pairs[|pairs| - 1];
        assert last in pairs;
        RecoveriesAreNeighbours(runs, last.0, last.1);
        assert last.1 in runs;
      }
    }
  }

  // ---------------------------------------------------------------------------------------------
  // The invariant of the event table
  // ---------------------------------------------------------------------------------------------

  /** An event that may be waiting for its group to be evaluated again. */
  ghost predicate Plausible(event: FlakeEvent, view: View, key: EventKey) {
    Fires(view, key) && (event.occurredAt.Some? ==> HasTime(view, key))
  }

  /** An event that says what a fresh derivation says, except that it may keep an older time when the
      derivation has none. */
  ghost predicate Current(event: FlakeEvent, view: View, key: EventKey) {
    && Plausible(event, view, key)
    && event.evidence == EventFor(view, key).evidence
    && (EventFor(view, key).occurredAt.Some? ==> event.occurredAt == EventFor(view, key).occurredAt)
  }

  /** No event is stale, except perhaps those of the dirty groups. */
  ghost predicate Sound(events: Events, view: View, dirty: iset<EventKey>) {
    forall k :: k in events ==> Plausible(events[k], view, k) && (k !in dirty ==> Current(events[k], view, k))
  }

  /** No event is missing, except perhaps those of the missing groups. */
  ghost predicate Complete(events: Events, view: View, missing: iset<EventKey>) {
    forall k :: Fires(view, k) && k !in missing ==> k in events
  }

  lemma CurrentIsExact(event: FlakeEvent, view: View, key: EventKey)
    requires Keyed(view.opportunities) && Current(event, view, key) && Timely(view, key)
    ensures event == EventFor(view, key)
  {
    DerivedTime(view, key);
  }

  /** Evaluating one group: it becomes current, no other event moves. */
  ghost function Refresh(events: Events, view: View, key: EventKey): Events {
    if Fires(view, key) then Record(events, key, EventFor(view, key)) else events
  }

  lemma RefreshCleans(events: Events, view: View, key: EventKey, dirty: iset<EventKey>, missing: iset<EventKey>)
    requires Keyed(view.opportunities) && Sound(events, view, dirty) && Complete(events, view, missing)
    ensures Sound(Refresh(events, view, key), view, dirty - iset{key})
    ensures Complete(Refresh(events, view, key), view, missing - iset{key})
  {
    if Fires(view, key) {
      DerivedTime(view, key);
    }
  }

  /** New facts dirty exactly the groups they join. */
  lemma NewFactsDirty(
    events: Events, v: View, w: View, dirty: iset<EventKey>, missing: iset<EventKey>, touched: iset<EventKey>)
    requires Extends(v, w) && Sound(events, v, dirty) && Complete(events, v, missing)
    requires forall k :: k !in touched ==> Group(v, k) == Group(w, k)
    ensures Sound(events, w, dirty + touched)
    ensures Complete(events, w, missing + touched)
  {
    forall k | k in events
      ensures Plausible(events[k], w, k) && (k !in dirty + touched ==> Current(events[k], w, k))
    {
      FiresIsMonotone(v, w, k);
      if HasTime(v, k) {
        HasTimeIsMonotone(v, w, k);
      }
    }
  }

  /** The groups one evaluation of a job name looks at. */
  ghost function Evaluated(view: View, repoId: int, runId: int, name: string): iset<EventKey> {
    var attempts := Ordered(InRun(view, repoId, runId, name));
    var workflow := FirstWorkflow(attempts, view.workflows);
    iset{Rerun(repoId, runId, name)} +
    (if attempts != [] && workflow.Some? then
       iset{SameCommit(repoId, workflow.value, name, attempts[|attempts| - 1].headSha)}
     else iset{})
  }

  lemma EvaluateJobCleans(
    events: Events, view: View, repoId: int, runId: int, name: string, dirty: iset<EventKey>, missing: iset<EventKey>)
    requires Keyed(view.opportunities) && Sound(events, view, dirty) && Complete(events, view, missing)
    ensures var after := EvaluateJob(events, view, repoId, runId, name);
            && Sound(after, view, dirty - Evaluated(view, repoId, runId, name))
            && Complete(after, view, missing - Evaluated(view, repoId, runId, name))
  {
    var a := Rerun(repoId, runId, name);
    var attempts := Ordered(InRun(view, repoId, runId, name));
    var recovered := EvaluateRerunRecovery(events, attempts, repoId, runId, name);
    assert recovered == Refresh(events, view, a);
    RefreshCleans(events, view, a, dirty, missing);
    var workflow := FirstWorkflow(attempts, view.workflows);
    if attempts != [] && workflow.Some? {
      var b := SameCommit(repoId, workflow.value, name, attempts[|attempts| - 1].headSha);
      assert EvaluateJob(events, view, repoId, runId, name) == Refresh(recovered, view, b);
      RefreshCleans(recovered, view, b, dirty - iset{a}, missing - iset{a});
      assert dirty - Evaluated(view, repoId, runId, name) == dirty - iset{a} - iset{b};
      assert missing - Evaluated(view, repoId, runId, name) == missing - iset{a} - iset{b};
    } else {
      assert dirty - Evaluated(view, repoId, runId, name) == dirty - iset{a};
      assert missing - Evaluated(view, repoId, runId, name) == missing - iset{a};
    }
  }

  // ---------------------------------------------------------------------------------------------
  // Exactly when the stored time of an event does not depend on history
  // ---------------------------------------------------------------------------------------------

  /** A history of one group: what was known of it at each of its evaluations. */
  ghost predicate History(views: seq<View>) {
    views != [] && forall i :: 0 <= i < |views| - 1 ==> Extends(views[i], views[i + 1])
  }

  ghost function EvaluateAll(views: seq<View>, key: EventKey): Events {
    if views == [] then map[]
    else Refresh(EvaluateAll(views[..|views| - 1], key), views[|views| - 1], key)
  }

  lemma {:induction false} EvaluateAllIsCurrent(views: seq<View>, key: EventKey)
    requires History(views) && Keyed(views[|views| - 1].opportunities)
    ensures forall k :: k in EvaluateAll(views, key) ==> k == key
    ensures var last := views[|views| - 1];
            if Fires(last, key) then key in EvaluateAll(views, key) && Current(EvaluateAll(views, key)[key], last, key)
            else EvaluateAll(views, key) == map[]
  {
    var last, before := views[|views| - 1], views[..|views| - 1];
    if Fires(last, key) {
      DerivedTime(last, key);
    }
    if before == [] {
    } else {
      var previous := before[|before| - 1];
      assert previous == views[|views| - 2];
      assert Extends(views[|views| - 2], views[|views| - 2 + 1]);
      EvaluateAllIsCurrent(before, key);
      if Fires(previous, key) {
        FiresIsMonotone(previous, last, key);
        if HasTime(previous, key) {
          HasTimeIsMonotone(previous, last, key);
        }
      }
    }
  }

  /** Exactly when every history that ends in the same facts leaves the event a fresh derivation gives. */
  lemma HistoryFreeIffTimely(last: View, key: EventKey)
    requires Keyed(last.opportunities) && Fires(last, key)
    ensures (forall views: seq<View> :: History(views) && views[|views| - 1] == last ==>
               EvaluateAll(views, key) == map[key := EventFor(last, key)])
            <==> Timely(last, key)
  {
    if Timely(last, key) {
      forall views: seq<View> | History(views) && views[|views| - 1] == last
        ensures EvaluateAll(views, key) == map[key := EventFor(last, key)]
      {
        EvaluateAllIsCurrent(views, key);
        CurrentIsExact(EvaluateAll(views, key)[key], last, key);
      }
    } else {
      var views := AnOlderTimeRemains(last, key);
      assert EvaluateAll(views, key)[key].occurredAt.Some?;
    }
  }

  /** The facts of the early evaluation that goes wrong: only a failure i and its timed recovery j. */
  function EarlyView(last: View, i: int, j: int): View
    requires i in last.opportunities && j in last.opportunities
  {
    View(map[i := last.opportunities[i], j := last.opportunities[j]], map[])
  }

  lemma EarlyEventHasTime(last: View, key: EventKey, i: int, j: int)
    requires Keyed(last.opportunities) && key.Rerun? && TimedWitness(Group(last, key), true, i, j)
    ensures var early := EarlyView(last, i, j);
            Extends(early, last) && Fires(early, key) && EventFor(early, key).occurredAt.Some?
  {
    var early := EarlyView(last, i, j);
    var group := Group(early, key);
    assert Witness(group, true, i, j);
    FiresIff(early, key);
    var runs := Ordered(group);
    OrderedHasTheGroup(group);
    var pairs := Recoveries(runs);
    var pair := pairs[|pairs| - 1];
    assert pair in pairs;
    RecoveriesAreNeighbours(runs, pair.0, pair.1);
    assert pair.1 in runs;
  }

  lemma AnOlderTimeRemains(last: View, key: EventKey) returns (views: seq<View>)
    requires Keyed(last.opportunities) && Fires(last, key) && !Timely(last, key)
    ensures History(views) && views[|views| - 1] == last
    ensures key in EvaluateAll(views, key) && EvaluateAll(views, key)[key].occurredAt.Some?
  {
    DerivedTime(last, key);
    var i, j :| TimedWitness(Group(last, key), key.Rerun?, i, j);
    EarlyEventHasTime(last, key, i, j);
    var early := EarlyView(last, i, j);
    views := [early, last];
    assert [early][..0] == [];
    assert EvaluateAll([early], key) == Refresh(map[], early, key);
    assert views[..1] == [early];
    assert EvaluateAll(views, key) == Refresh(EvaluateAll([early], key), last, key);
  }
}
