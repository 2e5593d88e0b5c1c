/**
  The time of an event, the one part of the event table that can depend on the order of the deliveries:
  exactly when it does not.
 */
module Times {
  import opened Wrappers
  import opened Merge
  import opened Detection
  import opened Signals
  import opened Handlers
  import opened Convergence
  import opened Order
  import Names

  // ---------------------------------------------------------------------------------------------
  // The last recovery of a group, and of a part of it
  // ---------------------------------------------------------------------------------------------

  /** A failure and its next opportunity, with no failure before a success from there on. */
  ghost predicate RecoversLast(attempts: seq<Opportunity>, p: int) {
    && 0 <= p < |attempts| - 1 && attempts[p].failed && !attempts[p + 1].failed
    && forall i, j :: p < i < j < |attempts| ==> !(attempts[i].failed && !attempts[j].failed)
  }

  lemma {:induction false} LastRecoveryAt(attempts: seq<Opportunity>) returns (p: int)
    requires Recoveries(attempts) != []
    ensures RecoversLast(attempts, p)
    ensures Recoveries(attempts)[|Recoveries(attempts)| - 1] == (attempts[p], attempts[p + 1])
  {
    var rest := attempts[1..];
    if Recoveries(rest) == [] {
      RecoveryIff(rest);
      p := 0;
      forall i, j | 0 < i < j < |attempts|
        ensures !(attempts[i].failed && !attempts[j].failed)
      {
        assert rest[i - 1] == attempts[i] && rest[j - 1] == attempts[j];
      }
    } else {
      var q := LastRecoveryAt(rest);
      p := q + 1;
      forall i, j | p < i < j < |attempts|
        ensures !(attempts[i].failed && !attempts[j].failed)
      {
        assert rest[i - 1] == attempts[i] && rest[j - 1] == attempts[j];
      }
    }
  }

  ghost predicate PartOf(part: seq<Opportunity>, all: seq<Opportunity>) {
    InQueryOrder(part) && InQueryOrder(all) && forall o :: o in part ==> o in all
  }

  lemma NothingTwice(all: seq<Opportunity>, i: int, j: int)
    requires InQueryOrder(all) && 0 <= i < |all| && 0 <= j < |all| && all[i] == all[j]
    ensures i == j
  {
  }

  lemma OrderIsShared(part: seq<Opportunity>, all: seq<Opportunity>, a: int, b: int) returns (i: int, j: int)
    requires PartOf(part, all) && 0 <= a < b < |part|
    ensures 0 <= i < j < |all| && all[i] == part[a] && all[j] == part[b]
  {
    assert part[a] in all && part[b] in all;
    i :| 0 <= i < |all| && all[i] == part[a];
    j :| 0 <= j < |all| && all[j] == part[b];
    assert Precedes(part[a], part[b]);
  }

  /** Nothing comes between two neighbours of the whole in the part either. */
  lemma NeighboursStay(part: seq<Opportunity>, all: seq<Opportunity>, p: int, r: int, t: int)
    requires PartOf(part, all) && 0 <= p < |all| - 1
    requires 0 <= r < |part| && part[r] == all[p] && 0 <= t < |part| && part[t] == all[p + 1]
    ensures t == r + 1
  {
    if t == r {
      NothingTwice(all, p, p + 1);
    } else if t < r {
      var i, j := OrderIsShared(part, all, t, r);
      NothingTwice(all, i, p + 1);
      NothingTwice(all, j, p);
    } else if r + 1 < t {
      var i, j := OrderIsShared(part, all, r, r + 1);
      var k, l := OrderIsShared(part, all, r + 1, t);
      NothingTwice(all, i, p);
      NothingTwice(all, j, k);
      NothingTwice(all, l, p + 1);
    }
  }

  /** A part of the group that has the two neighbours ends its recoveries with the same success. */
  lemma LastRecoveryRemains(part: seq<Opportunity>, all: seq<Opportunity>, p: int, q: int)
    requires PartOf(part, all) && RecoversLast(all, p) && RecoversLast(part, q)
    requires all[p] in part && all[p + 1] in part
    ensures part[q + 1] == all[p + 1]
  {
    var r :| 0 <= r < |part| && part[r] == all[p];
    var t :| 0 <= t < |part| && part[t] == all[p + 1];
    NeighboursStay(part, all, p, r, t);
    if r < q {
      var i, j := OrderIsShared(part, all, t, q);
      var k, l := OrderIsShared(part, all, q, q + 1);
      NothingTwice(all, i, p + 1);
      NothingTwice(all, j, k);
    }
  }

  ghost function LastOf(attempts: seq<Opportunity>): (Opportunity, Opportunity)
    requires Recoveries(attempts) != []
  {
    Recoveries(attempts)[|Recoveries(attempts)| - 1]
  }

  /** The pair whose success gives a Signal A event its time. */
  ghost function LastPair(view: View, key: EventKey): (Opportunity, Opportunity)
    requires key.Rerun? && Fires(view, key)
  {
    LastOf(Ordered(Group(view, key)))
  }

  lemma LastPairIsInTheGroup(view: View, key: EventKey)
    requires Keyed(view.opportunities) && key.Rerun? && Fires(view, key)
    ensures var (f, s), group := LastPair(view, key), Group(view, key);
            && f.jobId in group && group[f.jobId] == f && f.failed
            && s.jobId in group && group[s.jobId] == s && !s.failed && EventFor(view, key).occurredAt == s.completedAt
  {
    var runs := Ordered(Group(view, key));
    OrderedHasTheGroup(Group(view, key));
    var p := LastRecoveryAt(runs);
    assert runs[p] in runs && runs[p + 1] in runs;
  }

  lemma PartOfTheGroup(v: View, last: View, key: EventKey)
    requires Extends(v, last) && key.Rerun?
    ensures PartOf(Ordered(Group(v, key)), Ordered(Group(last, key)))
    ensures forall o :: o in Ordered(Group(last, key)) && o.jobId in v.opportunities ==> o in Ordered(Group(v, key))
  {
    hide Ordered, InQueryOrder;
    OrderedHasTheGroup(Group(v, key));
    OrderedHasTheGroup(Group(last, key));
    OrderedIsSorted(Group(v, key));
    OrderedIsSorted(Group(last, key));
  }

  lemma SameLastSuccess(part: seq<Opportunity>, all: seq<Opportunity>)
    requires PartOf(part, all) && Recoveries(part) != [] && Recoveries(all) != []
    requires LastOf(all).0 in part && LastOf(all).1 in part
    ensures LastOf(part).1 == LastOf(all).1
  {
    hide PartOf, RecoversLast;
    var p := LastRecoveryAt(all);
    var q := LastRecoveryAt(part);
    LastRecoveryRemains(part, all, p, q);
  }

  /** Whatever part of the group is known, once the last pair is known it gives the event its time. */
  lemma PartHasTheSameTime(v: View, last: View, key: EventKey)
    requires Extends(v, last) && key.Rerun? && Fires(last, key) && Fires(v, key)
    requires LastPair(last, key).0.jobId in v.opportunities && LastPair(last, key).1.jobId in v.opportunities
    ensures EventFor(v, key).occurredAt == EventFor(last, key).occurredAt
  {
    hide PartOf, Ordered, Recoveries;
    LastPairIsInTheGroup(last, key);
    OrderedHasTheGroup(Group(last, key));
    PartOfTheGroup(v, last, key);
    SameLastSuccess(Ordered(Group(v, key)), Ordered(Group(last, key)));
  }

  // ---------------------------------------------------------------------------------------------
  // What one delivery does to the time of an event
  // ---------------------------------------------------------------------------------------------

  /** The event, if there is one, has no time. */
  predicate Untimed(events: Events, key: EventKey) {
    key in events ==> events[key].occurredAt.None?
  }

  predicate Timed(events: Events, key: EventKey) {
    key in events && events[key].occurredAt.Some?
  }

  ghost predicate GivesNoTime(view: View, key: EventKey) {
    Fires(view, key) ==> EventFor(view, key).occurredAt.None?
  }

  lemma EvaluateKeepsTime(events: Events, view: View, repoId: int, runId: int, name: string, key: EventKey)
    ensures Timed(events, key) ==> Timed(EvaluateJob(events, view, repoId, runId, name), key)
    ensures key.Rerun? && Untimed(events, key) && GivesNoTime(view, key) ==>
              Untimed(EvaluateJob(events, view, repoId, runId, name), key)
  {
  }

  lemma {:induction false} EvaluateNamesKeepsTime(
    events: Events, view: View, repoId: int, runId: int, names: seq<string>, key: EventKey)
    ensures Timed(events, key) ==> Timed(EvaluateNames(events, view, repoId, runId, names), key)
    ensures key.Rerun? && Untimed(events, key) && GivesNoTime(view, key) ==>
              Untimed(EvaluateNames(events, view, repoId, runId, names), key)
  {
    if names != [] {
      var before := names[..|names| - 1];
      EvaluateNamesKeepsTime(events, view, repoId, runId, before, key);
      var soFar := EvaluateNames(events, view, repoId, runId, before);
      EvaluateKeepsTime(soFar, view, repoId, runId, names[|names| - 1], key);
    }
  }

  /** A known time is never lost, and a delivery after which the group gives no time does not add one. */
  lemma HandledKeepsTime(settings: Settings, st: State, d: Delivery, key: EventKey)
    ensures Timed(st.events, key) ==> Timed(Handled(settings, st, d).events, key)
    ensures key.Rerun? && Untimed(st.events, key) &&
            GivesNoTime(ViewOf(settings, Handled(settings, st, d).jobs), key) ==>
              Untimed(Handled(settings, st, d).events, key)
  {
    hide EvaluateJob, EvaluateNames, Timed, Untimed, GivesNoTime, ViewOf;
    if WellFormed(d) {
      var after := Handled(settings, st, d);
      var view := ViewOf(settings, after.jobs);
      if d.JobDelivery? {
        EvaluateKeepsTime(st.events, view, d.repoId.value, d.job.runId, d.job.name, key);
      } else {
        EvaluateNamesKeepsTime(st.events, view, d.repoId.value, d.run.id.value,
                               Names.SortedNames(ChangedNames(st.jobs, d.run.id.value)), key);
      }
    }
  }

  lemma {:induction false} TimesStay(settings: Settings, st: State, ds: seq<Delivery>, key: EventKey)
    requires Timed(st.events, key)
    ensures Timed(HandledAll(settings, st, ds).events, key)
  {
    if ds != [] {
      TimesStay(settings, st, ds[..|ds| - 1], key);
      HandledKeepsTime(settings, HandledAll(settings, st, ds[..|ds| - 1]), ds[|ds| - 1], key);
    }
  }

  // ---------------------------------------------------------------------------------------------
  // Some jobs first
  // ---------------------------------------------------------------------------------------------

  predicate IsAbout(d: Delivery, ids: set<int>) {
    WellFormed(d) && d.JobDelivery? && d.job.id.value in ids
  }

  /** The deliveries about some jobs, or the other deliveries, in their order. */
  function Part(ds: seq<Delivery>, ids: set<int>, about: bool): seq<Delivery> {
    if ds == [] then []
    else
      var d := ds[|ds| - 1];
      Part(ds[..|ds| - 1], ids, about) + if IsAbout(d, ids) == about then [d] else []
  }

  lemma {:induction false} PartHas(ds: seq<Delivery>, ids: set<int>, about: bool, d: Delivery)
    ensures d in Part(ds, ids, about) <==> d in ds && IsAbout(d, ids) == about
  {
    if ds != [] {
      PartHas(ds[..|ds| - 1], ids, about, d);
      assert ds == ds[..|ds| - 1] + [ds[|ds| - 1]];
    }
  }

  /** The same deliveries, those about some jobs first. */
  function Reordered(ds: seq<Delivery>, ids: set<int>): seq<Delivery> {
    Part(ds, ids, true) + Part(ds, ids, false)
  }

  lemma ReorderedHasTheSame(ds: seq<Delivery>, ids: set<int>)
    ensures Elements(Reordered(ds, ids)) == Elements(ds)
  {
    forall d
      ensures d in Reordered(ds, ids) <==> d in ds
    {
      PartHas(ds, ids, true, d);
      PartHas(ds, ids, false, d);
    }
  }

  function Early(settings: Settings, ds: seq<Delivery>, ids: set<int>): State {
    HandledAll(settings, EMPTY, Part(ds, ids, true))
  }

  function FinalView(settings: Settings, ds: seq<Delivery>): View {
    ViewOf(settings, HandledAll(settings, EMPTY, ds).jobs)
  }

  lemma RunExtendsView(settings: Settings, w: World, ds: seq<Delivery>, es: seq<Delivery>)
    requires AllConsistent(w, ds) && AllConsistent(w, es)
    ensures Extends(FinalView(settings, ds), FinalView(settings, ds + es))
  {
    EventsAreDerivedAlways(settings, w, ds);
    RunKeepsInvariant(settings, w, HandledAll(settings, EMPTY, ds), es, iset{});
    HandledInTwo(settings, EMPTY, ds, es);
  }

  lemma PartsAreConsistent(w: World, ds: seq<Delivery>, ids: set<int>)
    requires AllConsistent(w, ds)
    ensures AllConsistent(w, Part(ds, ids, true)) && AllConsistent(w, Part(ds, ids, false))
    ensures AllConsistent(w, Reordered(ds, ids))
  {
    forall d, about | d in Part(ds, ids, about)
      ensures Consistent(w, d)
    {
      PartHas(ds, ids, about, d);
    }
  }

  /** Early on nothing is stored but those jobs. */
  lemma EarlyHasNoOthers(settings: Settings, ds: seq<Delivery>, ids: set<int>, id: int)
    requires id in Early(settings, ds, ids).jobs
    ensures id in ids
  {
    var part := Part(ds, ids, true);
    JobRowIsTheMerge(settings, part, id);
    var p := JobPayloads(part, id)[0];
    JobPayloadsOfTheSet(part, id, p);
    var d :| d in part && IsForJob(d, id);
    PartHas(ds, ids, true, d);
  }

  /** And of those jobs everything is known. */
  lemma EarlyHasThem(settings: Settings, w: World, ds: seq<Delivery>, ids: set<int>, id: int)
    requires AllConsistent(w, ds) && id in ids && id in FinalView(settings, ds).opportunities
    ensures id in FinalView(settings, Part(ds, ids, true)).opportunities
  {
    var part := Part(ds, ids, true);
    PartsAreConsistent(w, ds, ids);
    EventsAreDerivedAlways(settings, w, ds);
    EventsAreDerivedAlways(settings, w, part);
    OpportunitiesAreCompleted(settings, w, HandledAll(settings, EMPTY, ds), id);
    CompletedIffDelivered(settings, ds, id);
    var p :| p in JobPayloads(ds, id) && p.status == Some(COMPLETED);
    JobPayloadsOfTheSet(ds, id, p);
    var d :| d in ds && IsForJob(d, id) && JobPayload(d.job) == p;
    PartHas(ds, ids, true, d);
    JobPayloadsOfTheSet(part, id, p);
    CompletedIffDelivered(settings, part, id);
    assert TrueJob(w, id, Early(settings, ds, ids).jobs[id]);
  }

  /** Early on detection sees exactly those of their opportunities, as it sees them in the end. */
  lemma EarlySeesTheirs(settings: Settings, w: World, ds: seq<Delivery>, ids: set<int>)
    requires AllConsistent(w, ds)
    ensures Extends(FinalView(settings, Part(ds, ids, true)), FinalView(settings, ds))
    ensures FinalView(settings, Part(ds, ids, true)).opportunities.Keys ==
            FinalView(settings, ds).opportunities.Keys * ids
    ensures FinalView(settings, Reordered(ds, ids)) == FinalView(settings, ds)
  {
    var early, late := FinalView(settings, Part(ds, ids, true)), FinalView(settings, ds);
    PartsAreConsistent(w, ds, ids);
    ReorderedHasTheSame(ds, ids);
    RunExtendsView(settings, w, Part(ds, ids, true), Part(ds, ids, false));
    SameView(settings, w, ds, Reordered(ds, ids));
    forall id
      ensures id in early.opportunities <==> id in late.opportunities && id in ids
    {
      if id in early.opportunities {
        EarlyHasNoOthers(settings, ds, ids, id);
      } else if id in late.opportunities && id in ids {
        EarlyHasThem(settings, w, ds, ids, id);
      }
    }
  }

  // ---------------------------------------------------------------------------------------------
  // Exactly when the event does not depend on the order
  // ---------------------------------------------------------------------------------------------

  function EventOf(settings: Settings, ds: seq<Delivery>, key: EventKey): Option<FlakeEvent> {
    var events := HandledAll(settings, EMPTY, ds).events;
    if key in events then Some(events[key]) else None
  }

  /** However the deliveries are ordered and repeated, the key ends with the same event or with none. */
  ghost predicate EventIsOrderFree(settings: Settings, ds: seq<Delivery>, key: EventKey) {
    forall es :: Elements(es) == Elements(ds) ==> EventOf(settings, es, key) == EventOf(settings, ds, key)
  }

  lemma TimelyIsOrderFree(settings: Settings, w: World, ds: seq<Delivery>, key: EventKey)
    requires AllConsistent(w, ds) && Timely(FinalView(settings, ds), key)
    ensures EventIsOrderFree(settings, ds, key)
  {
    forall es | Elements(es) == Elements(ds)
      ensures EventOf(settings, es, key) == EventOf(settings, ds, key)
    {
      assert forall d :: d in es ==> d in Elements(es);
      EventsAgree(settings, w, ds, es);
    }
  }

  /** Detection sees, of what it will see in the end, exactly these jobs. */
  ghost predicate SeesOnly(early: View, late: View, i: int, j: int) {
    Extends(early, late) && early.opportunities.Keys == late.opportunities.Keys * {i, j}
  }

  lemma TimedInPart(early: View, late: View, key: EventKey, i: int, j: int)
    requires SeesOnly(early, late, i, j) && key.Rerun? && TimedWitness(Group(late, key), true, i, j)
    ensures Fires(early, key) && EventFor(early, key).occurredAt.Some?
  {
    EarlyEventHasTime(late, key, i, j);
    assert early.opportunities == Signals.EarlyView(late, i, j).opportunities;
  }

  lemma UntimedInPart(early: View, late: View, key: EventKey, i: int, j: int)
    requires SeesOnly(early, late, i, j) && key.Rerun? && Fires(late, key) && EventFor(late, key).occurredAt.None?
    requires LastPair(late, key).0.jobId == i && LastPair(late, key).1.jobId == j
    ensures i in early.opportunities && j in early.opportunities && !HasTime(early, key)
  {
    hide Recoveries, Ordered, LastPair, EventFor, Fires;
    LastPairIsInTheGroup(late, key);
  }

  lemma DerivedHasItsTime(settings: Settings, st: State, key: EventKey)
    requires EventsAreDerived(settings, st)
    ensures var view := ViewOf(settings, st.jobs);
            && (Fires(view, key) && EventFor(view, key).occurredAt.Some? ==> Timed(st.events, key))
            && (!HasTime(view, key) ==> Untimed(st.events, key))
  {
    hide Fires, EventFor, HasTime, ViewOf, Timely;
  }

  lemma EarlySeesOnly(settings: Settings, w: World, ds: seq<Delivery>, i: int, j: int)
    requires AllConsistent(w, ds)
    ensures SeesOnly(FinalView(settings, Part(ds, {i, j}, true)), FinalView(settings, ds), i, j)
    ensures EventsAreDerived(settings, Early(settings, ds, {i, j}))
  {
    hide EventsAreDerived, ViewOf, HandledAll, Extends;
    PartsAreConsistent(w, ds, {i, j});
    EarlySeesTheirs(settings, w, ds, {i, j});
    EventsAreDerivedAlways(settings, w, Part(ds, {i, j}, true));
  }

  /** The failure and the timed recovery first: the event has a time, which stays. */
  lemma TimedFirst(settings: Settings, w: World, ds: seq<Delivery>, key: EventKey, i: int, j: int)
    requires AllConsistent(w, ds) && key.Rerun? && TimedWitness(Group(FinalView(settings, ds), key), true, i, j)
    ensures Timed(HandledAll(settings, EMPTY, Reordered(ds, {i, j})).events, key)
  {
    hide Timed, HandledAll, TimedWitness, ViewOf, Fires, EventFor, EventsAreDerived, SeesOnly;
    EarlySeesOnly(settings, w, ds, i, j);
    TimedInPart(FinalView(settings, Part(ds, {i, j}, true)), FinalView(settings, ds), key, i, j);
    DerivedHasItsTime(settings, Early(settings, ds, {i, j}), key);
    TimesStay(settings, Early(settings, ds, {i, j}), Part(ds, {i, j}, false), key);
    HandledInTwo(settings, EMPTY, Part(ds, {i, j}, true), Part(ds, {i, j}, false));
  }

  /** While the last pair is known the group gives no time, so none is ever recorded. */
  lemma {:induction false} StaysUntimed(
    settings: Settings, w: World, first: seq<Delivery>, rest: seq<Delivery>, last: View, key: EventKey)
    requires AllConsistent(w, first) && AllConsistent(w, rest)
    requires key.Rerun? && Fires(last, key) && EventFor(last, key).occurredAt.None?
    requires var (f, s), early := LastPair(last, key), FinalView(settings, first).opportunities;
             f.jobId in early && s.jobId in early
    requires Extends(FinalView(settings, first + rest), last)
    requires Untimed(HandledAll(settings, EMPTY, first).events, key)
    ensures Untimed(HandledAll(settings, EMPTY, first + rest).events, key)
  {
    if rest == [] {
      assert first + rest == first;
    } else {
      var before, d := first + rest[..|rest| - 1], rest[|rest| - 1];
      assert first + rest == before + [d];
      assert (before + [d])[..|before|] == before;
      RunExtendsView(settings, w, before, [d]);
      ExtendsOn(FinalView(settings, before), FinalView(settings, first + rest), last);
      StaysUntimed(settings, w, first, rest[..|rest| - 1], last, key);
      RunExtendsView(settings, w, first, rest);
      LastPairGivesNoTime(FinalView(settings, first + rest), last, key);
      HandledKeepsTime(settings, HandledAll(settings, EMPTY, before), d, key);
    }
  }

  lemma LastPairGivesNoTime(v: View, last: View, key: EventKey)
    requires Extends(v, last) && key.Rerun? && Fires(last, key) && EventFor(last, key).occurredAt.None?
    requires LastPair(last, key).0.jobId in v.opportunities && LastPair(last, key).1.jobId in v.opportunities
    ensures GivesNoTime(v, key)
  {
    if Fires(v, key) {
      PartHasTheSameTime(v, last, key);
    }
  }

  lemma ExtendsOn(u: View, v: View, w: View)
    requires Extends(u, v) && Extends(v, w)
    ensures Extends(u, w)
  {
  }

  /** The last pair first: the event has no time then, and never gets one. */
  lemma UntimedFirst(settings: Settings, w: World, ds: seq<Delivery>, key: EventKey, i: int, j: int)
    requires AllConsistent(w, ds) && key.Rerun? && Fires(FinalView(settings, ds), key)
    requires EventFor(FinalView(settings, ds), key).occurredAt.None?
    requires var (f, s) := LastPair(FinalView(settings, ds), key); i == f.jobId && j == s.jobId
    ensures Untimed(HandledAll(settings, EMPTY, Reordered(ds, {i, j})).events, key)
  {
    hide Untimed, HandledAll, LastPair, EventFor, Fires, ViewOf, HasTime, EventsAreDerived, SeesOnly;
    EarlySeesOnly(settings, w, ds, i, j);
    UntimedInPart(FinalView(settings, Part(ds, {i, j}, true)), FinalView(settings, ds), key, i, j);
    DerivedHasItsTime(settings, Early(settings, ds, {i, j}), key);
    PartsAreConsistent(w, ds, {i, j});
    EarlySeesTheirs(settings, w, ds, {i, j});
    RunExtendsView(settings, w, ds, []);
    assert ds + [] == ds;
    StaysUntimed(settings, w, Part(ds, {i, j}, true), Part(ds, {i, j}, false), FinalView(settings, ds), key);
  }

  /** For consistent deliveries a key ends with the same event for every order and repetition if and only
      if its time cannot be masked: the fresh derivation has one, or nothing in the group has. */
  lemma EventIsOrderFreeIff(settings: Settings, w: World, ds: seq<Delivery>, key: EventKey)
    requires AllConsistent(w, ds)
    ensures EventIsOrderFree(settings, ds, key) <==> Timely(FinalView(settings, ds), key)
  {
    if Timely(FinalView(settings, ds), key) {
      TimelyIsOrderFree(settings, w, ds, key);
    } else {
      UntimelyIsNot(settings, w, ds, key);
    }
  }

  lemma UntimelyIsNot(settings: Settings, w: World, ds: seq<Delivery>, key: EventKey)
    requires AllConsistent(w, ds) && !Timely(FinalView(settings, ds), key)
    ensures !EventIsOrderFree(settings, ds, key)
  {
    hide HandledAll, ViewOf, EventFor, Fires, LastPair;
    var view := FinalView(settings, ds);
    EventsAreDerivedAlways(settings, w, ds);
    DerivedTime(view, key);
    var i, j :| TimedWitness(Group(view, key), key.Rerun?, i, j);
    TimedFirst(settings, w, ds, key, i, j);
    ReorderedHasTheSame(ds, {i, j});
    var (f, s) := LastPair(view, key);
    UntimedFirst(settings, w, ds, key, f.jobId, s.jobId);
    ReorderedHasTheSame(ds, {f.jobId, s.jobId});
    var es, fs := Reordered(ds, {i, j}), Reordered(ds, {f.jobId, s.jobId});
    assert EventOf(settings, es, key) != EventOf(settings, fs, key);
  }
}
