/** Every row is done or failed in the end, provided work and sweeps continue and deferrals do not. */
module Settling {
  import opened Wrappers
  import opened Queue
  import opened Protocol

  /** How many steps a row has left: two for each attempt it may still make, and one to be recorded. */
  function Measure(row: Row): int {
    if Terminal(row) then 0
    else if row.attempts >= row.maxAttempts && row.status.Pending? then 1
    else 2 * (row.maxAttempts - row.attempts) + if row.status.Processing? then 2 else 1
  }

  /** The measure together with the deferrals still to come; a deferral gives an attempt back. */
  function Weight(s: Sys, id: int, deferrals: nat): int
    requires id in s.rows && id in s.deferrals
  {
    Measure(s.rows[id]) + 2 * (deferrals - s.deferrals[id])
  }

  ghost predicate Good(s: Sys) {
    Owned(s) && Counted(s)
  }

  /** Every step that changes a row lowers its weight: a claim, a retry, a reap and a fail lower the
      measure itself, and only a deferral raises it. */
  lemma ChangeLowersWeight(settings: Settings, s: Sys, step: Step, id: int, deferrals: nat)
    requires Good(s) && Enabled(s, step) && InTime(settings, s, step)
    requires id in s.rows
    ensures var t := Do(settings, s, step);
            && id in t.rows && id in t.deferrals
            && (t.rows[id] == s.rows[id] ==> Weight(t, id, deferrals) == Weight(s, id, deferrals))
            && (t.rows[id] != s.rows[id] ==> Weight(t, id, deferrals) < Weight(s, id, deferrals))
            && (t.rows[id] != s.rows[id] && !step.Defer? ==> Measure(t.rows[id]) < Measure(s.rows[id]))
  {
  }

  lemma MeasureIsNatural(s: Sys, id: int)
    requires Counted(s) && id in s.rows
    ensures 0 <= Measure(s.rows[id]) <= 2 * s.rows[id].maxAttempts + 2
    ensures Measure(s.rows[id]) == 0 <==> Terminal(s.rows[id])
  {
  }

  // ---------------------------------------------------------------------------------------------
  // Unending runs
  // ---------------------------------------------------------------------------------------------

  /** An unending run in which the reaper never fires on a live claim. */
  ghost predicate Unending(settings: Settings, states: nat -> Sys, steps: nat -> Step) {
    Good(states(0)) && forall i: nat :: Follows(settings, states, steps, i)
  }

  ghost predicate Follows(settings: Settings, states: nat -> Sys, steps: nat -> Step, i: nat) {
    && Enabled(states(i), steps(i)) && InTime(settings, states(i), steps(i))
    && states(i + 1) == Do(settings, states(i), steps(i))
  }

  /** Sweeps go on for ever, and the clock with them. */
  ghost predicate SweepsContinue(states: nat -> Sys, steps: nat -> Step) {
    forall i: nat, t: real :: SweepAfter(states, steps, i, t)
  }

  ghost predicate SweepAfter(states: nat -> Sys, steps: nat -> Step, i: nat, t: real) {
    exists j: nat :: j >= i && SweepAt(states, steps, j, t)
  }

  ghost predicate SweepAt(states: nat -> Sys, steps: nat -> Step, j: nat, t: real) {
    steps(j).Sweep? && states(j).now > t
  }

  /** A waiting row with attempts left is claimed at some time. */
  ghost predicate ClaimsContinue(states: nat -> Sys, id: int) {
    forall i: nat :: ClaimedAfter(states, id, i)
  }

  ghost predicate ClaimedAfter(states: nat -> Sys, id: int, i: nat) {
    id in states(i).rows && WaitsForClaim(states(i).rows[id]) ==> exists j: nat :: j >= i && ChangesAt(states, id, j)
  }

  predicate WaitsForClaim(row: Row) {
    row.status.Pending? && row.attempts < row.maxAttempts
  }

  ghost predicate ChangesAt(states: nat -> Sys, id: int, j: nat) {
    id in states(j).rows && id in states(j + 1).rows && states(j + 1).rows[id] != states(j).rows[id]
  }

  ghost predicate DeferralsEnd(states: nat -> Sys, id: int, deferrals: nat) {
    forall i: nat :: id in states(i).rows && id in states(i).deferrals ==> states(i).deferrals[id] <= deferrals
  }

  lemma {:induction false} UnendingIsGood(settings: Settings, states: nat -> Sys, steps: nat -> Step, i: nat)
    requires Unending(settings, states, steps)
    ensures Good(states(i))
  {
    if i > 0 {
      UnendingIsGood(settings, states, steps, i - 1);
      assert Follows(settings, states, steps, i - 1);
      StepKeepsOwnership(settings, states(i - 1), steps(i - 1));
      StepKeepsCounts(settings, states(i - 1), steps(i - 1));
    }
  }

  /** A row that differs later changed at some step in between; until then its weight stays. */
  lemma {:induction false} FirstChange(
    settings: Settings, states: nat -> Sys, steps: nat -> Step, id: int, i: nat, j: nat, deferrals: nat)
    returns (k: nat)
    requires Unending(settings, states, steps) && id in states(i).rows && i <= j
    ensures id in states(j).rows && i <= k <= j
    ensures k < j ==> ChangesAt(states, id, k)
    ensures id in states(k).rows && states(k).rows[id] == states(i).rows[id]
    ensures id in states(i).deferrals && id in states(k).deferrals
    ensures Weight(states(k), id, deferrals) == Weight(states(i), id, deferrals)
    decreases j
  {
    UnendingIsGood(settings, states, steps, i);
    if i == j {
      k := j;
    } else {
      k := FirstChange(settings, states, steps, id, i, j - 1, deferrals);
      UnendingIsGood(settings, states, steps, j - 1);
      assert Follows(settings, states, steps, j - 1);
      ChangeLowersWeight(settings, states(j - 1), steps(j - 1), id, deferrals);
      if k == j - 1 && states(j).rows[id] == states(j - 1).rows[id] {
        k := j;
      } else if k == j - 1 {
        assert ChangesAt(states, id, k);
      }
    }
  }

  /** A sweep that runs late enough moves every unfinished row that cannot be claimed. */
  lemma SweepMovesIt(settings: Settings, s: Sys, id: int)
    requires Good(s) && id in s.rows && !Terminal(s.rows[id]) && !WaitsForClaim(s.rows[id])
    requires s.rows[id].lockedAt.Some? ==> s.now > s.rows[id].lockedAt.value + settings.reaperTimeout
    ensures var t := Do(settings, s, Sweep); id in t.rows && t.rows[id] != s.rows[id]
  {
  }

  lemma LateSweepChanges(settings: Settings, states: nat -> Sys, steps: nat -> Step, id: int, j: nat)
    requires Unending(settings, states, steps) && steps(j).Sweep?
    requires id in states(j).rows && !Terminal(states(j).rows[id]) && !WaitsForClaim(states(j).rows[id])
    requires var row := states(j).rows[id];
             row.lockedAt.Some? ==> states(j).now > row.lockedAt.value + settings.reaperTimeout
    ensures ChangesAt(states, id, j)
  {
    UnendingIsGood(settings, states, steps, j);
    SweepMovesIt(settings, states(j), id);
    assert Follows(settings, states, steps, j);
  }

  /** No row that is not finished is left alone for ever. */
  lemma SomethingHappens(settings: Settings, states: nat -> Sys, steps: nat -> Step, id: int, i: nat, deferrals: nat)
    returns (k: nat)
    requires Unending(settings, states, steps) && SweepsContinue(states, steps) && ClaimsContinue(states, id)
    requires id in states(i).rows && !Terminal(states(i).rows[id])
    ensures k >= i && ChangesAt(states, id, k)
    ensures id in states(i).deferrals && id in states(k).rows && id in states(k).deferrals
    ensures Weight(states(k), id, deferrals) == Weight(states(i), id, deferrals)
  {
    var row := states(i).rows[id];
    if WaitsForClaim(row) {
      assert ClaimedAfter(states, id, i);
      var j: nat :| j >= i && ChangesAt(states, id, j);
      k := FirstChange(settings, states, steps, id, i, j, deferrals);
    } else {
      var t := if row.lockedAt.Some? then row.lockedAt.value + settings.reaperTimeout else 0.0;
      assert SweepAfter(states, steps, i, t);
      var j: nat :| j >= i && SweepAt(states, steps, j, t);
      k := FirstChange(settings, states, steps, id, i, j, deferrals);
      if k == j {
        LateSweepChanges(settings, states, steps, id, j);
      }
    }
  }

  lemma ChangeIsProgress(settings: Settings, states: nat -> Sys, steps: nat -> Step, id: int, j: nat, deferrals: nat)
    requires Unending(settings, states, steps) && ChangesAt(states, id, j) && DeferralsEnd(states, id, deferrals)
    requires id in states(j).deferrals
    ensures id in states(j + 1).deferrals && 0 <= Weight(states(j), id, deferrals)
    ensures Weight(states(j + 1), id, deferrals) < Weight(states(j), id, deferrals)
  {
    UnendingIsGood(settings, states, steps, j);
    assert Follows(settings, states, steps, j);
    ChangeLowersWeight(settings, states(j), steps(j), id, deferrals);
    MeasureIsNatural(states(j), id);
  }

  /** A row that is claimed whenever it waits settles, even while new rows keep arriving. */
  lemma {:induction false} RowThatIsClaimedSettles(
    settings: Settings, states: nat -> Sys, steps: nat -> Step, id: int, i: nat, deferrals: nat)
    returns (k: nat)
    requires Unending(settings, states, steps) && SweepsContinue(states, steps)
    requires ClaimsContinue(states, id) && DeferralsEnd(states, id, deferrals)
    requires id in states(i).rows && id in states(i).deferrals
    ensures k >= i && id in states(k).rows && Terminal(states(k).rows[id])
    decreases Weight(states(i), id, deferrals)
  {
    if Terminal(states(i).rows[id]) {
      k := i;
    } else {
      var j := SomethingHappens(settings, states, steps, id, i, deferrals);
      ChangeIsProgress(settings, states, steps, id, j, deferrals);
      k := RowThatIsClaimedSettles(settings, states, steps, id, j + 1, deferrals);
    }
  }

  // ---------------------------------------------------------------------------------------------
  // The whole table
  // ---------------------------------------------------------------------------------------------

  /** From `start` on nothing is enqueued. */
  ghost predicate NoNewRows(states: nat -> Sys, start: nat) {
    forall i: nat :: i >= start ==> SameIds(states, start, i)
  }

  ghost predicate SameIds(states: nat -> Sys, i: nat, j: nat) {
    states(j).rows.Keys == states(i).rows.Keys
  }

  /** Workers keep working: whenever some row can be claimed, some row, not necessarily that one, changes
      later. */
  ghost predicate WorkContinues(states: nat -> Sys) {
    forall i: nat, id: int :: WorkedAfter(states, id, i)
  }

  ghost predicate WorkedAfter(states: nat -> Sys, id: int, i: nat) {
    id in states(i).rows && Claimable(states(i).rows[id], states(i).now) ==> SomeChange(states, i)
  }

  ghost predicate SomeChange(states: nat -> Sys, i: nat) {
    exists j: nat, id: int :: j >= i && ChangesAt(states, id, j)
  }

  ghost predicate AllDeferralsEnd(states: nat -> Sys, deferrals: nat) {
    forall id: int :: DeferralsEnd(states, id, deferrals)
  }

  ghost predicate AllSettled(s: Sys) {
    forall id :: id in s.rows ==> Terminal(s.rows[id])
  }

  /** As long as some row is unfinished something changes: a row that cannot be claimed is moved by a
      sweep, and a row that waits becomes claimable. */
  lemma UnfinishedMeansChange(
    settings: Settings, states: nat -> Sys, steps: nat -> Step, id: int, i: nat, deferrals: nat)
    requires Unending(settings, states, steps) && SweepsContinue(states, steps) && WorkContinues(states)
    requires id in states(i).rows && !Terminal(states(i).rows[id])
    ensures SomeChange(states, i)
  {
    var row := states(i).rows[id];
    if WaitsForClaim(row) {
      var t := if row.nextAttemptAt.Some? then row.nextAttemptAt.value else 0.0;
      assert SweepAfter(states, steps, i, t);
      var j: nat :| j >= i && SweepAt(states, steps, j, t);
      var k := FirstChange(settings, states, steps, id, i, j, deferrals);
      if k == j {
        assert WorkedAfter(states, id, j);
        var l: nat, other: int :| l >= j && ChangesAt(states, other, l);
      }
    } else {
      var t := if row.lockedAt.Some? then row.lockedAt.value + settings.reaperTimeout else 0.0;
      assert SweepAfter(states, steps, i, t);
      var j: nat :| j >= i && SweepAt(states, steps, j, t);
      var k := FirstChange(settings, states, steps, id, i, j, deferrals);
      if k == j {
        LateSweepChanges(settings, states, steps, id, j);
      }
    }
  }

  /** The weights of the listed rows together. */
  ghost function Total(s: Sys, ids: seq<int>, deferrals: nat): int
    requires forall id :: id in ids ==> id in s.rows && id in s.deferrals
  {
    if ids == [] then 0 else Weight(s, ids[0], deferrals) + Total(s, ids[1..], deferrals)
  }

  ghost predicate Lists(s: Sys, ids: seq<int>) {
    forall id :: id in ids ==> id in s.rows && id in s.deferrals
  }

  lemma {:induction false} TotalIsNatural(s: Sys, ids: seq<int>, deferrals: nat)
    requires Good(s) && Lists(s, ids) && forall id :: id in ids ==> s.deferrals[id] <= deferrals
    ensures Total(s, ids, deferrals) >= 0
  {
    if ids != [] {
      MeasureIsNatural(s, ids[0]);
      TotalIsNatural(s, ids[1..], deferrals);
    }
  }

  ghost predicate WeighsLess(s: Sys, t: Sys, id: int, deferrals: nat)
    requires id in s.rows && id in s.deferrals && id in t.rows && id in t.deferrals
  {
    Weight(t, id, deferrals) < Weight(s, id, deferrals)
  }

  lemma {:induction false} TotalFalls(s: Sys, t: Sys, ids: seq<int>, deferrals: nat)
    requires Lists(s, ids) && Lists(t, ids)
    requires forall id :: id in ids ==> Weight(t, id, deferrals) <= Weight(s, id, deferrals)
    ensures Total(t, ids, deferrals) <= Total(s, ids, deferrals)
    ensures (exists id :: id in ids && WeighsLess(s, t, id, deferrals)) ==>
              Total(t, ids, deferrals) < Total(s, ids, deferrals)
  {
    if ids != [] {
      assert ids == [ids[0]] + ids[1..];
      TotalFalls(s, t, ids[1..], deferrals);
      if id :| id in ids && WeighsLess(s, t, id, deferrals) {
        assert id == ids[0] || id in ids[1..];
      }
    }
  }

  lemma StepLowersTotal(
    settings: Settings, states: nat -> Sys, steps: nat -> Step, ids: seq<int>, i: nat, deferrals: nat)
    requires Unending(settings, states, steps) && Lists(states(i), ids)
    ensures Lists(states(i + 1), ids)
    ensures Total(states(i + 1), ids, deferrals) <= Total(states(i), ids, deferrals)
    ensures forall id :: id in ids && ChangesAt(states, id, i) ==>
              Total(states(i + 1), ids, deferrals) < Total(states(i), ids, deferrals)
  {
    UnendingIsGood(settings, states, steps, i);
    assert Follows(settings, states, steps, i);
    forall id | id in ids
      ensures id in states(i + 1).rows && id in states(i + 1).deferrals
      ensures Weight(states(i + 1), id, deferrals) <= Weight(states(i), id, deferrals)
      ensures ChangesAt(states, id, i) ==> WeighsLess(states(i), states(i + 1), id, deferrals)
    {
      ChangeLowersWeight(settings, states(i), steps(i), id, deferrals);
    }
    TotalFalls(states(i), states(i + 1), ids, deferrals);
  }

  lemma {:induction false} TotalNeverRises(
    settings: Settings, states: nat -> Sys, steps: nat -> Step, ids: seq<int>, i: nat, j: nat, deferrals: nat)
    requires Unending(settings, states, steps) && Lists(states(i), ids) && i <= j
    ensures Lists(states(j), ids) && Total(states(j), ids, deferrals) <= Total(states(i), ids, deferrals)
    decreases j
  {
    if i < j {
      TotalNeverRises(settings, states, steps, ids, i, j - 1, deferrals);
      StepLowersTotal(settings, states, steps, ids, j - 1, deferrals);
    }
  }

  lemma TotalFallsLater(
    settings: Settings, states: nat -> Sys, steps: nat -> Step, start: nat, ids: seq<int>, i: nat, deferrals: nat)
    returns (j: nat)
    requires Unending(settings, states, steps) && SweepsContinue(states, steps) && WorkContinues(states)
    requires NoNewRows(states, start) && AllDeferralsEnd(states, deferrals)
    requires i >= start && Elements(ids) == states(start).rows.Keys && Lists(states(i), ids) && !AllSettled(states(i))
    ensures j > i && Lists(states(j), ids)
    ensures 0 <= Total(states(i), ids, deferrals) && Total(states(j), ids, deferrals) < Total(states(i), ids, deferrals)
  {
    hide Total, SweepsContinue, WorkContinues;
    var id :| id in states(i).rows && !Terminal(states(i).rows[id]);
    UnfinishedMeansChange(settings, states, steps, id, i, deferrals);
    var k: nat, other: int :| k >= i && ChangesAt(states, other, k);
    assert SameIds(states, start, k);
    assert other in Elements(ids);
    TotalNeverRises(settings, states, steps, ids, i, k, deferrals);
    StepLowersTotal(settings, states, steps, ids, k, deferrals);
    UnendingIsGood(settings, states, steps, i);
    assert forall x :: x in ids ==> DeferralsEnd(states, x, deferrals);
    TotalIsNatural(states(i), ids, deferrals);
    j := k + 1;
  }

  lemma {:induction false} SettlesFrom(
    settings: Settings, states: nat -> Sys, steps: nat -> Step, start: nat, ids: seq<int>, i: nat, deferrals: nat)
    returns (k: nat)
    requires Unending(settings, states, steps) && SweepsContinue(states, steps) && WorkContinues(states)
    requires NoNewRows(states, start) && AllDeferralsEnd(states, deferrals)
    requires i >= start && Elements(ids) == states(start).rows.Keys && Lists(states(i), ids)
    ensures k >= i && AllSettled(states(k))
    decreases Total(states(i), ids, deferrals)
  {
    hide Total, SweepsContinue, WorkContinues, Unending, NoNewRows, AllDeferralsEnd, AllSettled;
    if AllSettled(states(i)) {
      k := i;
    } else {
      var j := TotalFallsLater(settings, states, steps, start, ids, i, deferrals);
      k := SettlesFrom(settings, states, steps, start, ids, j, deferrals);
    }
  }

  /** Under the timeout assumption, once nothing new is enqueued every row reaches done or failed: it is
      enough that sweeps go on, that deferrals do not, and that workers change some row whenever some row
      can be claimed. */
  lemma EveryRowSettles(settings: Settings, states: nat -> Sys, steps: nat -> Step, start: nat, deferrals: nat)
    returns (k: nat)
    requires Unending(settings, states, steps) && SweepsContinue(states, steps) && WorkContinues(states)
    requires NoNewRows(states, start) && AllDeferralsEnd(states, deferrals)
    ensures k >= start
    ensures forall j: nat :: j >= k ==> AllSettled(states(j)) && states(j).rows == states(k).rows
  {
    var ids := Enumerate(states(start).rows.Keys);
    UnendingIsGood(settings, states, steps, start);
    assert forall id :: id in ids ==> id in Elements(ids);
    k := SettlesFrom(settings, states, steps, start, ids, start, deferrals);
    forall j: nat | j >= k
      ensures AllSettled(states(j)) && states(j).rows == states(k).rows
    {
      assert SameIds(states, start, j) && SameIds(states, start, k);
      forall id | id in states(k).rows
        ensures id in states(j).rows && states(j).rows[id] == states(k).rows[id]
      {
        SettledRowsStay(settings, states, steps, id, k, j);
      }
    }
  }

  /** And it stays there. */
  lemma {:induction false} SettledRowsStay(
    settings: Settings, states: nat -> Sys, steps: nat -> Step, id: int, k: nat, j: nat)
    requires Unending(settings, states, steps) && id in states(k).rows && Terminal(states(k).rows[id]) && k <= j
    ensures id in states(j).rows && states(j).rows[id] == states(k).rows[id]
    decreases j
  {
    if k < j {
      SettledRowsStay(settings, states, steps, id, k, j - 1);
      UnendingIsGood(settings, states, steps, j - 1);
      assert Follows(settings, states, steps, j - 1);
      TerminalStays(settings, states(j - 1), steps(j - 1), id);
    }
  }
}
