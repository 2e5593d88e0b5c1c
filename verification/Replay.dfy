/**
  Re-evaluation: the deliveries kept on the queue are copied back and handled once more, in whatever
  order the worker claims them.
 */
module Replay {
  import opened Wrappers
  import opened Merge
  import opened Detection
  import opened Signals
  import opened Handlers
  import opened Convergence
  import opened Order

  const WEBHOOK := "webhook"
  const REEVALUATE := "reevaluate"
  const BACKFILL_PRIORITY := 1

  datatype QueueRow = QueueRow(
    jobType: string, deliveryId: Option<string>, payload: Delivery, priority: int, createdAt: int)

  predicate IsSource(row: QueueRow, repoId: Option<int>) {
    row.jobType == WEBHOOK && (repoId.Some? ==> row.payload.repoId == repoId)
  }

  /** INSERT FROM SELECT: the stored webhook rows, of one repository or of all, as re-evaluation rows. */
  function Copies(rows: seq<QueueRow>, repoId: Option<int>): seq<QueueRow> {
    if rows == [] then []
    else CopyOf(rows[0], repoId) + Copies(rows[1..], repoId)
  }

  function CopyOf(row: QueueRow, repoId: Option<int>): seq<QueueRow> {
    if IsSource(row, repoId) then [QueueRow(REEVALUATE, None, row.payload, BACKFILL_PRIORITY, row.createdAt)] else []
  }

  /** How many webhook rows there are to be copied. */
  function Sources(rows: seq<QueueRow>, repoId: Option<int>): nat {
    if rows == [] then 0
    else Sources(rows[..|rows| - 1], repoId) + if IsSource(rows[|rows| - 1], repoId) then 1 else 0
  }

  predicate IsCopy(copy: QueueRow, source: QueueRow) {
    && copy.jobType == REEVALUATE && copy.deliveryId.None? && copy.priority == BACKFILL_PRIORITY
    && copy.payload == source.payload && copy.createdAt == source.createdAt
  }

  /** The copies are those of the sources, one each and in the same order: the copy of a source comes after
      as many copies as there are sources before it. */
  ghost predicate CopiedInOrder(rows: seq<QueueRow>, copies: seq<QueueRow>, repoId: Option<int>) {
    && |copies| == Sources(rows, repoId)
    && forall i :: 0 <= i < |rows| && IsSource(rows[i], repoId) ==> IsCopyAt(rows, copies, repoId, i)
  }

  predicate IsCopyAt(rows: seq<QueueRow>, copies: seq<QueueRow>, repoId: Option<int>, i: nat)
    requires i < |rows|
  {
    var rank := Sources(rows[..i], repoId);
    rank < |copies| && IsCopy(copies[rank], rows[i])
  }

  lemma Associates<T>(a: seq<T>, b: seq<T>, c: seq<T>)
    ensures a + (b + c) == (a + b) + c
  {
  }

  lemma {:induction false} CopiesOfConcat(a: seq<QueueRow>, b: seq<QueueRow>, repoId: Option<int>)
    ensures Copies(a + b, repoId) == Copies(a, repoId) + Copies(b, repoId)
  {
    if a == [] {
      assert a + b == b;
    } else {
      CopiesOfConcat(a[1..], b, repoId);
      assert (a + b)[0] == a[0] && (a + b)[1..] == a[1..] + b;
      Associates(CopyOf(a[0], repoId), Copies(a[1..], repoId), Copies(b, repoId));
    }
  }

  lemma CopiesOfOneMore(before: seq<QueueRow>, last: QueueRow, repoId: Option<int>)
    ensures |Copies(before + [last], repoId)| == |Copies(before, repoId)| + if IsSource(last, repoId) then 1 else 0
  {
    CopiesOfConcat(before, [last], repoId);
    assert [last][1..] == [];
    assert Copies([last], repoId) == CopyOf(last, repoId) + [];
  }

  lemma {:induction false} OneCopyPerSource(rows: seq<QueueRow>, repoId: Option<int>)
    ensures |Copies(rows, repoId)| == Sources(rows, repoId)
  {
    if rows != [] {
      var before, last := rows[..|rows| - 1], rows[|rows| - 1];
      assert rows == before + [last];
      OneCopyPerSource(before, repoId);
      CopiesOfOneMore(before, last, repoId);
    }
  }

  lemma CopyOfSource(rows: seq<QueueRow>, repoId: Option<int>, i: nat)
    requires i < |rows| && IsSource(rows[i], repoId)
    ensures IsCopyAt(rows, Copies(rows, repoId), repoId, i)
  {
    OneCopyPerSource(rows[..i], repoId);
    CopiesOfConcat(rows[..i], rows[i..], repoId);
    assert rows == rows[..i] + rows[i..];
    assert Copies(rows[i..], repoId)[0] == CopyOf(rows[i], repoId)[0];
  }

  lemma CopiesInOrder(rows: seq<QueueRow>, repoId: Option<int>)
    ensures CopiedInOrder(rows, Copies(rows, repoId), repoId)
  {
    OneCopyPerSource(rows, repoId);
    forall i | 0 <= i < |rows| && IsSource(rows[i], repoId)
      ensures IsCopyAt(rows, Copies(rows, repoId), repoId, i)
    {
      CopyOfSource(rows, repoId, i);
    }
  }

  /** A delivery stored by the webhook path, of the repository asked for if one was. */
  predicate WasDelivered(row: QueueRow, repoId: Option<int>) {
    row.jobType == "webhook" && (repoId == None || row.payload.repoId == repoId)
  }

  /** The same delivery, to be handled again, behind whatever is live. */
  predicate Repeats(copy: QueueRow, source: QueueRow) {
    && copy.jobType == "reevaluate" && copy.deliveryId == None && copy.priority == 1
    && copy.payload == source.payload && copy.createdAt == source.createdAt
  }

  ghost function DeliveredRows(rows: seq<QueueRow>, repoId: Option<int>): set<int> {
    set i | 0 <= i < |rows| && WasDelivered(rows[i], repoId)
  }

  lemma SourceWasDelivered(row: QueueRow, repoId: Option<int>)
    ensures IsSource(row, repoId) <==> WasDelivered(row, repoId)
  {
  }

  lemma {:induction false} SourcesAreCounted(rows: seq<QueueRow>, repoId: Option<int>)
    ensures Sources(rows, repoId) == |DeliveredRows(rows, repoId)|
  {
    hide IsSource, WasDelivered;
    if rows == [] {
      assert DeliveredRows(rows, repoId) == {};
    } else {
      var before, last := rows[..|rows| - 1], |rows| - 1;
      SourcesAreCounted(before, repoId);
      SourceWasDelivered(rows[last], repoId);
      assert DeliveredRows(rows, repoId) ==
             DeliveredRows(before, repoId) + if WasDelivered(rows[last], repoId) then {last} else {};
    }
  }

  /** Each stored webhook delivery is repeated, and nothing else is. */
  ghost predicate RepeatsTheDelivered(rows: seq<QueueRow>, copies: seq<QueueRow>, repoId: Option<int>) {
    && |copies| == |DeliveredRows(rows, repoId)|
    && (forall i :: i in DeliveredRows(rows, repoId) ==> exists copy :: copy in copies && Repeats(copy, rows[i]))
    && forall copy :: copy in copies ==> exists i :: i in DeliveredRows(rows, repoId) && Repeats(copy, rows[i])
  }

  lemma {:induction false} EveryCopyRepeats(rows: seq<QueueRow>, repoId: Option<int>, copy: QueueRow)
    requires copy in Copies(rows, repoId)
    ensures exists i :: i in DeliveredRows(rows, repoId) && Repeats(copy, rows[i])
  {
    if copy in CopyOf(rows[0], repoId) {
      assert 0 in DeliveredRows(rows, repoId) && Repeats(copy, rows[0]);
    } else {
      EveryCopyRepeats(rows[1..], repoId, copy);
      var i :| i in DeliveredRows(rows[1..], repoId) && Repeats(copy, rows[1..][i]);
      assert i + 1 in DeliveredRows(rows, repoId) && Repeats(copy, rows[i + 1]);
    }
  }

  lemma CopiesRepeatTheDelivered(rows: seq<QueueRow>, repoId: Option<int>)
    ensures RepeatsTheDelivered(rows, Copies(rows, repoId), repoId)
  {
    var copies := Copies(rows, repoId);
    OneCopyPerSource(rows, repoId);
    SourcesAreCounted(rows, repoId);
    forall i | i in DeliveredRows(rows, repoId)
      ensures exists copy :: copy in copies && Repeats(copy, rows[i])
    {
      CopyOfSource(rows, repoId, i);
      assert copies[Sources(rows[..i], repoId)] in copies;
    }
    forall copy | copy in copies
      ensures exists i :: i in DeliveredRows(rows, repoId) && Repeats(copy, rows[i])
    {
      EveryCopyRepeats(rows, repoId, copy);
    }
  }

  class EventQueue {
    var rows: seq<QueueRow>

    /** Every stored webhook row of the repository, or of all, is appended once more, in the stored order,
        with its payload and its age but without a delivery id; nothing already there changes. */
    method EnqueueReevaluation(repoId: Option<int>) returns (queued: nat)
      modifies this
      ensures old(rows) <= rows && |rows| == |old(rows)| + queued
      ensures queued == Sources(old(rows), repoId)
      ensures CopiedInOrder(old(rows), rows[|old(rows)|..], repoId)
      ensures RepeatsTheDelivered(old(rows), rows[|old(rows)|..], repoId)
      ensures rows == old(rows) + Copies(old(rows), repoId)
    {
      var copies := Copies(rows, repoId);
      CopiesRepeatTheDelivered(rows, repoId);
      CopiesInOrder(rows, repoId);
      rows := rows + copies;
      queued := |copies|;
    }
  }

  /** Copies are not themselves copied. */
  lemma {:induction false} CopiesAreNotSources(rows: seq<QueueRow>, r: Option<int>, s: Option<int>)
    ensures Copies(Copies(rows, r), s) == []
  {
    if rows != [] {
      CopiesAreNotSources(rows[1..], r, s);
      CopiesOfConcat(CopyOf(rows[0], r), Copies(rows[1..], r), s);
    }
  }

  /** A second re-evaluation queues the same rows as the first: it never compounds its own output. */
  lemma SecondReevaluationQueuesTheSame(rows: seq<QueueRow>, repoId: Option<int>)
    ensures Copies(rows + Copies(rows, repoId), repoId) == Copies(rows, repoId)
  {
    CopiesOfConcat(rows, Copies(rows, repoId), repoId);
    CopiesAreNotSources(rows, repoId, repoId);
  }

  lemma {:induction false} CopiesAreTheSources(rows: seq<QueueRow>, repoId: Option<int>, d: Delivery)
    ensures (exists row :: row in Copies(rows, repoId) && row.payload == d) <==>
            (exists row :: row in rows && IsSource(row, repoId) && row.payload == d)
  {
    if rows != [] {
      CopiesAreTheSources(rows[1..], repoId, d);
      if IsSource(rows[0], repoId) && rows[0].payload == d {
        assert QueueRow(REEVALUATE, None, d, BACKFILL_PRIORITY, rows[0].createdAt) in Copies(rows, repoId);
      }
      assert forall row :: row in rows <==> row == rows[0] || row in rows[1..];
    }
  }

  // ---------------------------------------------------------------------------------------------
  // Replaying stored deliveries
  // ---------------------------------------------------------------------------------------------

  /** What is left of the events after any subset of them was deleted. */
  ghost predicate SubsetOf(kept: Events, events: Events) {
    forall k :: k in kept ==> k in events && kept[k] == events[k]
  }

  /** The groups that the job deliveries of a replay evaluate. */
  ghost function Covered(view: View, ds: seq<Delivery>): iset<EventKey> {
    if ds == [] then iset{}
    else
      var d := ds[|ds| - 1];
      Covered(view, ds[..|ds| - 1]) +
      if WellFormed(d) && d.JobDelivery? then Evaluated(view, d.repoId.value, d.job.runId, d.job.name) else iset{}
  }

  lemma {:induction false} CoveredHas(view: View, ds: seq<Delivery>, d: Delivery)
    requires d in ds && WellFormed(d) && d.JobDelivery?
    ensures Evaluated(view, d.repoId.value, d.job.runId, d.job.name) <= Covered(view, ds)
  {
    if d != ds[|ds| - 1] {
      CoveredHas(view, ds[..|ds| - 1], d);
    }
  }

  /** A replay of deliveries that were already handled changes nothing detection can see. */
  lemma ReplayKeepsView(settings: Settings, w: World, ds: seq<Delivery>, kept: State, again: seq<Delivery>)
    requires AllConsistent(w, ds) && (forall d :: d in again ==> d in ds)
    requires kept.jobs == HandledAll(settings, EMPTY, ds).jobs && kept.runs == HandledAll(settings, EMPTY, ds).runs
    ensures ViewOf(settings, HandledAll(settings, kept, again).jobs) == ViewOf(settings, kept.jobs)
    ensures HandledAll(settings, kept, again).jobs == HandledAll(settings, EMPTY, ds + again).jobs
    ensures HandledAll(settings, kept, again).runs == HandledAll(settings, EMPTY, ds + again).runs
    ensures AllConsistent(w, ds + again) && Elements(ds + again) == Elements(ds)
  {
    FactsIgnoreEvents(settings, kept, HandledAll(settings, EMPTY, ds), again);
    HandledInTwo(settings, EMPTY, ds, again);
    assert Elements(ds + again) == Elements(ds);
    SameView(settings, w, ds, ds + again);
  }

  lemma {:induction false} ReplayFills(
    settings: Settings, w: World, ds: seq<Delivery>, kept: State, again: seq<Delivery>, missing: iset<EventKey>)
    requires AllConsistent(w, ds) && (forall d :: d in again ==> d in ds)
    requires kept.jobs == HandledAll(settings, EMPTY, ds).jobs && kept.runs == HandledAll(settings, EMPTY, ds).runs
    requires Valid(w, kept) && Sound(kept.events, ViewOf(settings, kept.jobs), iset{})
    requires Complete(kept.events, ViewOf(settings, kept.jobs), missing)
    ensures var view := ViewOf(settings, kept.jobs);
            var after := HandledAll(settings, kept, again);
            && ViewOf(settings, after.jobs) == view
            && Valid(w, after)
            && Sound(after.events, view, iset{})
            && Complete(after.events, view, missing - Covered(view, again))
  {
    var view := ViewOf(settings, kept.jobs);
    if again == [] {
      assert missing - iset{} == missing;
    } else {
      var before, d := again[..|again| - 1], again[|again| - 1];
      ReplayFills(settings, w, ds, kept, before, missing);
      ReplayKeepsView(settings, w, ds, kept, again);
      assert d in ds && Consistent(w, d);
      ReplayOne(settings, w, HandledAll(settings, kept, before), d, view, missing - Covered(view, before));
      assert missing - Covered(view, before) - Covered(view, [d]) == missing - Covered(view, again) by {
        assert [d][..0] == [];
      }
    }
  }

  lemma ReplayOne(settings: Settings, w: World, st: State, d: Delivery, view: View, missing: iset<EventKey>)
    requires Valid(w, st) && Consistent(w, d)
    requires view == ViewOf(settings, st.jobs) == ViewOf(settings, Handled(settings, st, d).jobs)
    requires Sound(st.events, view, iset{}) && Complete(st.events, view, missing)
    ensures var after := Handled(settings, st, d);
            && Valid(w, after) && Sound(after.events, view, iset{})
            && Complete(after.events, view, missing - Covered(view, [d]))
  {
    assert [d][..0] == [];
    StepKeepsInvariant(settings, w, st, d, missing);
    if WellFormed(d) && d.JobDelivery? {
      JobStep(settings, w, st, d.repoId.value, d.job.id.value, d.job, missing);
    }
  }

  /** A replay of the job deliveries of a repository evaluates every group of that repository that fires. */
  lemma FiringGroupsAreCovered(settings: Settings, w: World, ds: seq<Delivery>, again: seq<Delivery>, key: EventKey)
    requires AllConsistent(w, ds) && (forall d :: d in again ==> d in ds)
    requires forall d :: d in ds && d.repoId == Some(key.repoId) ==> d in again
    requires Fires(ViewOf(settings, HandledAll(settings, EMPTY, ds).jobs), key)
    ensures key in Covered(ViewOf(settings, HandledAll(settings, EMPTY, ds).jobs), again)
  {
    var st := HandledAll(settings, EMPTY, ds);
    var view := ViewOf(settings, st.jobs);
    EventsAreDerivedAlways(settings, w, ds);
    FiresIff(view, key);
    var i, j :| Witness(Group(view, key), key.Rerun?, i, j);
    JobRowIsTheMerge(settings, ds, i);
    var p := JobPayloads(ds, i)[0];
    JobPayloadsOfTheSet(ds, i, p);
    var d :| d in ds && IsForJob(d, i) && JobPayload(d.job) == p;
    assert Consistent(w, d) && TrueJob(w, i, st.jobs[i]);
    EvaluatedCovers(settings, w, st, i, key);
    CoveredHas(view, again, d);
  }

  /** Replaying the stored deliveries of one repository, or of all, after any of the events were
      deleted: no completed job, no workflow and no dominated row changes, and every event of the
      repository is there again as the facts imply it. */
  lemma ReplayRebuilds(
    settings: Settings, w: World, ds: seq<Delivery>, kept: Events, again: seq<Delivery>, repoId: Option<int>)
    requires AllConsistent(w, ds) && SubsetOf(kept, HandledAll(settings, EMPTY, ds).events)
    requires forall d :: d in again ==> d in ds
    requires forall d :: d in ds && (repoId.None? || d.repoId == repoId) ==> d in again
    ensures var st := HandledAll(settings, EMPTY, ds);
            var after := HandledAll(settings, st.(events := kept), again);
            var view := ViewOf(settings, st.jobs);
            && (forall id :: SameJob(st.jobs, after.jobs, Elements(JobPayloads(ds, id)), id))
            && (forall k :: SameRun(st.runs, after.runs, Elements(RunPayloads(ds, k)), k))
            && (forall k: EventKey :: repoId.None? || repoId == Some(k.repoId) ==>
                 (k in after.events <==> k in st.events))
            && (forall k :: k in after.events ==>
                  && k in st.events && Current(after.events[k], view, k)
                  && (Timely(view, k) ==> after.events[k] == st.events[k] == EventFor(view, k)))
  {
    var st := HandledAll(settings, EMPTY, ds);
    ReplayFacts(settings, w, ds, st.(events := kept), again);
    ReplayEvents(settings, w, ds, kept, again, repoId);
  }

  lemma ReplayFacts(settings: Settings, w: World, ds: seq<Delivery>, kept: State, again: seq<Delivery>)
    requires AllConsistent(w, ds) && (forall d :: d in again ==> d in ds)
    requires kept.jobs == HandledAll(settings, EMPTY, ds).jobs && kept.runs == HandledAll(settings, EMPTY, ds).runs
    ensures var after := HandledAll(settings, kept, again);
            && (forall id :: SameJob(kept.jobs, after.jobs, Elements(JobPayloads(ds, id)), id))
            && (forall k :: SameRun(kept.runs, after.runs, Elements(RunPayloads(ds, k)), k))
  {
    ReplayKeepsView(settings, w, ds, kept, again);
    forall id {
      SameJobs(settings, w, ds, ds + again, id);
    }
    forall k {
      SameRuns(settings, w, ds, ds + again, k);
    }
  }

  lemma ReplayEvents(
    settings: Settings, w: World, ds: seq<Delivery>, kept: Events, again: seq<Delivery>, repoId: Option<int>)
    requires AllConsistent(w, ds) && SubsetOf(kept, HandledAll(settings, EMPTY, ds).events)
    requires forall d :: d in again ==> d in ds
    requires forall d :: d in ds && (repoId.None? || d.repoId == repoId) ==> d in again
    ensures var st := HandledAll(settings, EMPTY, ds);
            var after := HandledAll(settings, st.(events := kept), again);
            var view := ViewOf(settings, st.jobs);
            && (forall k: EventKey :: repoId.None? || repoId == Some(k.repoId) ==>
                 (k in after.events <==> k in st.events))
            && (forall k :: k in after.events ==>
                  && k in st.events && Current(after.events[k], view, k)
                  && (Timely(view, k) ==> after.events[k] == st.events[k] == EventFor(view, k)))
  {
    var st := HandledAll(settings, EMPTY, ds);
    var view := ViewOf(settings, st.jobs);
    var all := iset k: EventKey | Fires(view, k);
    EventsAreDerivedAlways(settings, w, ds);
    var start := st.(events := kept);
    ReplayFills(settings, w, ds, start, again, all);
    var after := HandledAll(settings, start, again);
    forall k: EventKey | (repoId.None? || repoId == Some(k.repoId)) && k in st.events
      ensures k in after.events
    {
      FiringGroupsAreCovered(settings, w, ds, again, k);
    }
    forall k | k in after.events && Timely(view, k)
      ensures after.events[k] == EventFor(view, k)
    {
      CurrentIsExact(after.events[k], view, k);
    }
  }
}
