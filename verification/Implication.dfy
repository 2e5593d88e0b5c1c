/** The eligibility half of the rollup's flake filter never excludes anything in a reachable state. */
module Implication {
  import opened Wrappers
  import opened Detection
  import opened Signals
  import opened Handlers
  import opened Convergence
  import opened Rollup

  /** Every run that an event names is a stored, eligible run of the event's own repository. */
  lemma ImplicatedRunsAreOpportunities(settings: Settings, w: World, ds: seq<Delivery>, repoId: int, id: int)
    requires AllConsistent(w, ds)
    requires var st := HandledAll(settings, EMPTY, ds); id in Implicated(st.events, repoId)
    ensures var st := HandledAll(settings, EMPTY, ds);
            id in st.jobs && st.jobs[id].repoId == repoId && IsOpportunity(settings, st.jobs[id].progress)
  {
    var st := HandledAll(settings, EMPTY, ds);
    var view := ViewOf(settings, st.jobs);
    EventsAreDerivedAlways(settings, w, ds);
    var key :| key in st.events && key.repoId == repoId && id in st.events[key].evidence.jobIds;
    assert Fires(view, key) && Current(st.events[key], view, key);
    EvidenceIsEligible(view, key, id);
  }

  /** So a day's flakes are all the runs of the day that some event names. */
  lemma FlakesAreTheImplicated(settings: Settings, w: World, ds: seq<Delivery>, key: StatKey)
    requires AllConsistent(w, ds)
    ensures var st := HandledAll(settings, EMPTY, ds);
            var ids := Members(st.jobs, key);
            Flakes(settings, Facts(st.jobs, st.events), key.repoId, ids) == ids * Implicated(st.events, key.repoId)
  {
    var st := HandledAll(settings, EMPTY, ds);
    var ids := Members(st.jobs, key);
    forall id | id in ids && id in Implicated(st.events, key.repoId)
      ensures id in Opportunities(settings, st.jobs, ids)
    {
      ImplicatedRunsAreOpportunities(settings, w, ds, key.repoId, id);
    }
  }
}
