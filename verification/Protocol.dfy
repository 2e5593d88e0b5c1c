/**
  Any number of workers over one queue table, with crashes, and a reaper that knows only the clock.
  Each transaction is one atomic step; a batch claim is a run of single claims at one instant.
 */
module Protocol {
  import opened Wrappers
  import opened Queue

  /** A claim that a running worker still holds. The token is unique. */
  datatype Claim = Claim(token: nat, worker: int, job: ClaimedJob, lockedAt: real)

  /** The table, the clock and the live claims; and, as history, how often each row was claimed and
      deferred, and the rows whose handler's writes were committed, in order. */
  datatype Sys = Sys(
    rows: Rows, now: real, live: set<Claim>, tokens: nat,
    claims: map<int, nat>, deferrals: map<int, nat>, committed: seq<int>)

  const START := Sys(map[], 0.0, {}, 0, map[], map[], [])

  datatype Step =
    | Tick(seconds: real)
    | Insert(inserted: Rows)
    | ClaimRow(worker: int, id: int)
    | Commit(claim: Claim, enqueued: Rows)
    | Retry(claim: Claim)
    | Defer(claim: Claim, seconds: real)
    | Crash(worker: int)
    | Sweep

  /** Newly enqueued rows: fresh ids, nothing attempted yet. */
  predicate Fresh(rows: Rows, inserted: Rows) {
    inserted.Keys !! rows.Keys &&
    forall id :: id in inserted ==>
      inserted[id].status.Pending? && inserted[id].attempts == 0 && inserted[id].maxAttempts >= 0
  }

  predicate Enabled(s: Sys, step: Step) {
    match step
    case Tick(seconds) => seconds >= 0.0
    case Insert(inserted) => Fresh(s.rows, inserted)
    case ClaimRow(_, id) => id in s.rows && Claimable(s.rows[id], s.now)
    case Commit(c, enqueued) => c in s.live && c.job.id in s.rows && Fresh(s.rows, enqueued)
    case Retry(c) => c in s.live && c.job.id in s.rows
    case Defer(c, _) => c in s.live && c.job.id in s.rows
    case Crash(_) => true
    case Sweep => true
  }

  function Zeros(ids: Rows): map<int, nat> {
    map id | id in ids :: 0
  }

  function NewClaim(s: Sys, worker: int, id: int): Claim
    requires id in s.rows
  {
    Claim(s.tokens, worker,
          ClaimedJob(id, s.rows[id].jobType, s.rows[id].attempts + 1, s.rows[id].maxAttempts), s.now)
  }

  function Bump(counts: map<int, nat>, id: int): map<int, nat> {
    counts[id := (if id in counts then counts[id] else 0) + 1]
  }

  function Do(settings: Settings, s: Sys, step: Step): Sys
    requires Enabled(s, step)
  {
    match step
    case Tick(seconds) => s.(now := s.now + seconds)
    case Insert(inserted) =>
      s.(rows := s.rows + inserted, claims := s.claims + Zeros(inserted), deferrals := s.deferrals + Zeros(inserted))
    case ClaimRow(worker, id) =>
      s.(rows := s.rows[id := Claimed(s.rows[id], s.now)],
         live := s.live + {NewClaim(s, worker, id)}, tokens := s.tokens + 1, claims := Bump(s.claims, id))
    case Commit(c, enqueued) =>
      s.(rows := s.rows[c.job.id := Completed(s.rows[c.job.id], s.now)] + enqueued, live := s.live - {c},
         claims := s.claims + Zeros(enqueued), deferrals := s.deferrals + Zeros(enqueued),
         committed := s.committed + [c.job.id])
    case Retry(c) =>
      s.(rows := s.rows[c.job.id := Retried(settings, s.rows[c.job.id], c.job, s.now)], live := s.live - {c})
    case Defer(c, seconds) =>
      s.(rows := s.rows[c.job.id := Deferred(s.rows[c.job.id], seconds, s.now)], live := s.live - {c},
         deferrals := Bump(s.deferrals, c.job.id))
    case Crash(worker) => s.(live := set c | c in s.live && c.worker != worker)
    case Sweep => s.(rows := SweptRows(settings, s.rows, s.now))
  }

  ghost predicate CanRun(settings: Settings, s: Sys, steps: seq<Step>)
    decreases |steps|
  {
    steps == [] || (Enabled(s, steps[0]) && CanRun(settings, Do(settings, s, steps[0]), steps[1..]))
  }

  ghost function RunAll(settings: Settings, s: Sys, steps: seq<Step>): Sys
    requires CanRun(settings, s, steps)
    decreases |steps|
  {
    if steps == [] then s else RunAll(settings, Do(settings, s, steps[0]), steps[1..])
  }

  // ---------------------------------------------------------------------------------------------
  // What holds in every interleaving, whatever the reaper does
  // ---------------------------------------------------------------------------------------------

  function LiveOn(s: Sys, id: int): set<Claim> {
    set c | c in s.live && c.job.id == id
  }

  /** A row's attempts are its claims minus its deferrals, at least the number of workers that still
      hold it, and never more than its ceiling. */
  ghost predicate Counted(s: Sys) {
    && (forall c :: c in s.live ==> c.token < s.tokens && c.job.id in s.rows)
    && (forall id :: id in s.rows ==>
          && id in s.claims && id in s.deferrals
          && s.rows[id].attempts + s.deferrals[id] == s.claims[id]
          && |LiveOn(s, id)| <= s.rows[id].attempts <= s.rows[id].maxAttempts)
  }

  lemma FewerLive(s: Sys, t: Sys, id: int)
    requires t.live <= s.live
    ensures |LiveOn(t, id)| <= |LiveOn(s, id)|
    ensures forall c :: c in s.live && c !in t.live && c.job.id == id ==> |LiveOn(t, id)| < |LiveOn(s, id)|
  {
    var a, b := LiveOn(t, id), LiveOn(s, id);
    assert b == a + (b - a);
    assert |b| == |a| + |b - a|;
    forall c | c in s.live && c !in t.live && c.job.id == id
      ensures |b - a| > 0
    {
      assert c in b - a;
    }
  }

  lemma ClaimKeepsCounts(settings: Settings, s: Sys, worker: int, id: int)
    requires Counted(s) && Enabled(s, ClaimRow(worker, id))
    ensures Counted(Do(settings, s, ClaimRow(worker, id)))
  {
    var t := Do(settings, s, ClaimRow(worker, id));
    var c := NewClaim(s, worker, id);
    assert c !in s.live;
    forall i | i in t.rows
      ensures |LiveOn(t, i)| <= t.rows[i].attempts
    {
      assert LiveOn(t, i) == if i == id then LiveOn(s, i) + {c} else LiveOn(s, i);
    }
  }

  lemma InsertKeepsCounts(s: Sys, t: Sys, inserted: Rows)
    requires Counted(s) && Fresh(s.rows, inserted)
    requires t.rows == s.rows + inserted && t.live == s.live && t.tokens == s.tokens
    requires t.claims == s.claims + Zeros(inserted) && t.deferrals == s.deferrals + Zeros(inserted)
    ensures Counted(t)
  {
    forall id | id in t.rows
      ensures |LiveOn(t, id)| <= t.rows[id].attempts <= t.rows[id].maxAttempts
    {
      if id in inserted {
        assert LiveOn(t, id) == {};
      } else {
        assert LiveOn(t, id) == LiveOn(s, id);
      }
    }
  }

  /** A worker records an outcome for a row it holds: the attempt is given back by a deferral only. */
  lemma OutcomeKeepsCounts(settings: Settings, s: Sys, step: Step)
    requires Counted(s) && Enabled(s, step)
    requires step.Retry? || step.Defer? || (step.Commit? && step.enqueued == map[])
    ensures Counted(Do(settings, s, step))
  {
    var t := Do(settings, s, step);
    forall id | id in t.rows
      ensures |LiveOn(t, id)| <= t.rows[id].attempts <= t.rows[id].maxAttempts
    {
      FewerLive(s, t, id);
    }
  }

  lemma OtherStepsKeepCounts(settings: Settings, s: Sys, step: Step)
    requires Counted(s) && Enabled(s, step)
    requires step.Tick? || step.Crash? || step.Sweep?
    ensures Counted(Do(settings, s, step))
  {
    var t := Do(settings, s, step);
    forall id | id in t.rows
      ensures |LiveOn(t, id)| <= t.rows[id].attempts <= t.rows[id].maxAttempts
    {
      FewerLive(s, t, id);
    }
  }

  lemma StepKeepsCounts(settings: Settings, s: Sys, step: Step)
    requires Counted(s) && Enabled(s, step)
    ensures Counted(Do(settings, s, step))
  {
    var t := Do(settings, s, step);
    match step {
      case ClaimRow(worker, id) => ClaimKeepsCounts(settings, s, worker, id);
      case Insert(inserted) => InsertKeepsCounts(s, t, inserted);
      case Commit(c, enqueued) =>
        OutcomeKeepsCounts(settings, s, Commit(c, map[]));
        InsertKeepsCounts(Do(settings, s, Commit(c, map[])), t, enqueued);
      case Retry(_) => OutcomeKeepsCounts(settings, s, step);
      case Defer(_, _) => OutcomeKeepsCounts(settings, s, step);
      case Tick(_) => OtherStepsKeepCounts(settings, s, step);
      case Crash(_) => OtherStepsKeepCounts(settings, s, step);
      case Sweep => OtherStepsKeepCounts(settings, s, step);
    }
  }

  lemma {:induction false} AttemptsAreCounted(settings: Settings, s: Sys, steps: seq<Step>)
    requires Counted(s) && CanRun(settings, s, steps)
    ensures Counted(RunAll(settings, s, steps))
    decreases |steps|
  {
    if steps != [] {
      StepKeepsCounts(settings, s, steps[0]);
      AttemptsAreCounted(settings, Do(settings, s, steps[0]), steps[1..]);
    }
  }

  /** How often a run claims a row, and defers it. */
  function ClaimsIn(steps: seq<Step>, id: int): nat {
    if steps == [] then 0
    else (if steps[0].ClaimRow? && steps[0].id == id then 1 else 0) + ClaimsIn(steps[1..], id)
  }

  function DeferralsIn(steps: seq<Step>, id: int): nat {
    if steps == [] then 0
    else (if steps[0].Defer? && steps[0].claim.job.id == id then 1 else 0) + DeferralsIn(steps[1..], id)
  }

  lemma {:induction false} CountsFollowTheSteps(settings: Settings, s: Sys, steps: seq<Step>, id: int)
    requires Counted(s) && CanRun(settings, s, steps) && id in s.rows
    ensures var t := RunAll(settings, s, steps);
            && id in t.rows && id in t.claims && id in t.deferrals
            && t.claims[id] == s.claims[id] + ClaimsIn(steps, id)
            && t.deferrals[id] == s.deferrals[id] + DeferralsIn(steps, id)
    decreases |steps|
  {
    if steps != [] {
      StepKeepsCounts(settings, s, steps[0]);
      StepCountsItself(settings, s, steps[0], id);
      CountsFollowTheSteps(settings, Do(settings, s, steps[0]), steps[1..], id);
    }
  }

  lemma StepCountsItself(settings: Settings, s: Sys, step: Step, id: int)
    requires Counted(s) && Enabled(s, step) && id in s.rows
    ensures var t := Do(settings, s, step);
            && id in t.rows && id in t.claims && id in t.deferrals
            && t.claims[id] == s.claims[id] + (if step.ClaimRow? && step.id == id then 1 else 0)
            && t.deferrals[id] == s.deferrals[id] + (if step.Defer? && step.claim.job.id == id then 1 else 0)
  {
  }

  /** Whatever the interleaving, the attempts a row has gained are the claims of it less the deferrals. */
  lemma AttemptsFollowTheSteps(settings: Settings, s: Sys, steps: seq<Step>, id: int)
    requires Counted(s) && CanRun(settings, s, steps) && id in s.rows
    ensures var t := RunAll(settings, s, steps);
            && id in t.rows
            && t.rows[id].attempts == s.rows[id].attempts + ClaimsIn(steps, id) - DeferralsIn(steps, id)
  {
    hide Do, ClaimsIn, DeferralsIn;
    CountsFollowTheSteps(settings, s, steps, id);
    AttemptsAreCounted(settings, s, steps);
  }

  // ---------------------------------------------------------------------------------------------
  // What needs the timeout assumption
  // ---------------------------------------------------------------------------------------------

  /** Every live claim is the one its row records, and no row has two. */
  ghost predicate Owned(s: Sys) {
    && (forall c :: c in s.live ==>
          && c.token < s.tokens && c.job.id in s.rows
          && s.rows[c.job.id].status.Processing? && s.rows[c.job.id].lockedAt == Some(c.lockedAt)
          && s.rows[c.job.id].attempts == c.job.attempts && s.rows[c.job.id].maxAttempts == c.job.maxAttempts)
    && (forall c, d :: c in s.live && d in s.live && c.job.id == d.job.id ==> c == d)
    && (forall id :: id in s.rows && s.rows[id].status.Processing? ==> s.rows[id].lockedAt.Some?)
  }

  /** A row's writes were committed once if the row is done, and never otherwise. */
  ghost predicate CommittedOnce(s: Sys) {
    forall id :: multiset(s.committed)[id] == if id in s.rows && s.rows[id].status.Done? then 1 else 0
  }

  predicate Terminal(row: Row) {
    row.status.Done? || row.status.Failed?
  }

  /** No claim of a running worker is older than the reaper's timeout when the reaper runs. */
  ghost predicate NoLiveClaimIsStuck(settings: Settings, s: Sys) {
    forall c :: c in s.live ==> c.lockedAt >= s.now - settings.reaperTimeout
  }

  ghost predicate InTime(settings: Settings, s: Sys, step: Step) {
    step.Sweep? ==> NoLiveClaimIsStuck(settings, s)
  }

  ghost predicate RunsInTime(settings: Settings, s: Sys, steps: seq<Step>)
    requires CanRun(settings, s, steps)
    decreases |steps|
  {
    steps == [] || (InTime(settings, s, steps[0]) && RunsInTime(settings, Do(settings, s, steps[0]), steps[1..]))
  }

  /** The steps lead from one state to the other, and no sweep among them meets an overdue live claim. */
  ghost predicate Ran(settings: Settings, s: Sys, steps: seq<Step>, t: Sys) {
    CanRun(settings, s, steps) && RunsInTime(settings, s, steps) && RunAll(settings, s, steps) == t
  }

  lemma RanOne(settings: Settings, s: Sys, step: Step)
    requires Enabled(s, step) && InTime(settings, s, step)
    ensures Ran(settings, s, [step], Do(settings, s, step))
  {
    var t := Do(settings, s, step);
    assert [step][1..] == [];
    assert CanRun(settings, t, []) && RunsInTime(settings, t, []) && RunAll(settings, t, []) == t;
  }

  lemma RanTwo(settings: Settings, s: Sys, a: Step, b: Step, t: Sys)
    requires Ran(settings, s, [a, b], t)
    ensures Enabled(s, a) && InTime(settings, s, a)
    ensures var mid := Do(settings, s, a); Enabled(mid, b) && InTime(settings, mid, b) && t == Do(settings, mid, b)
  {
    var mid := Do(settings, s, a);
    assert [a, b][1..] == [b] && [b][1..] == [];
    assert CanRun(settings, mid, [b]) && RunsInTime(settings, mid, [b]) && RunAll(settings, mid, [b]) == t;
  }

  lemma {:induction false} RanOn(settings: Settings, s: Sys, a: seq<Step>, t: Sys, b: seq<Step>, u: Sys)
    requires Ran(settings, s, a, t) && Ran(settings, t, b, u)
    ensures Ran(settings, s, a + b, u)
    decreases |a|
  {
    if a == [] {
      assert a + b == b;
    } else {
      assert (a + b)[0] == a[0] && (a + b)[1..] == a[1..] + b;
      RanOn(settings, Do(settings, s, a[0]), a[1..], t, b, u);
    }
  }

  lemma StepKeepsOwnership(settings: Settings, s: Sys, step: Step)
    requires Owned(s) && Enabled(s, step) && InTime(settings, s, step)
    ensures Owned(Do(settings, s, step))
  {
  }

  /** Done and failed are absorbing. */
  lemma TerminalStays(settings: Settings, s: Sys, step: Step, id: int)
    requires Owned(s) && Enabled(s, step)
    requires id in s.rows && Terminal(s.rows[id])
    ensures id in Do(settings, s, step).rows && Do(settings, s, step).rows[id] == s.rows[id]
  {
  }

  lemma StepKeepsCommits(settings: Settings, s: Sys, step: Step)
    requires Owned(s) && CommittedOnce(s) && Enabled(s, step)
    ensures CommittedOnce(Do(settings, s, step))
  {
    var t := Do(settings, s, step);
    if step.Commit? {
      assert multiset(t.committed) == multiset(s.committed) + multiset{step.claim.job.id};
    }
  }

  /** Over any run in which no live claim outlives the timeout: each processing row has at most one
      live owner, which is the one it records; a row that is done or failed never changes again; and
      the writes of a handler are committed exactly once, exactly when its row becomes done. */
  lemma {:induction false} RunsInTimeAreSafe(settings: Settings, s: Sys, steps: seq<Step>)
    requires Owned(s) && CommittedOnce(s) && CanRun(settings, s, steps) && RunsInTime(settings, s, steps)
    ensures var t := RunAll(settings, s, steps);
            && Owned(t) && CommittedOnce(t)
            && (forall id :: id in s.rows ==> id in t.rows)
            && (forall id :: id in s.rows && Terminal(s.rows[id]) ==> t.rows[id] == s.rows[id])
            && s.committed <= t.committed
    decreases |steps|
  {
    if steps != [] {
      var next := Do(settings, s, steps[0]);
      StepKeepsOwnership(settings, s, steps[0]);
      StepKeepsCommits(settings, s, steps[0]);
      forall id | id in s.rows && Terminal(s.rows[id])
        ensures next.rows[id] == s.rows[id]
      {
        TerminalStays(settings, s, steps[0], id);
      }
      RunsInTimeAreSafe(settings, next, steps[1..]);
    }
  }

  /** A pending row whose wait is not over is left alone by everyone, except that a sweep may fail it. */
  lemma WaitingRowStays(settings: Settings, s: Sys, step: Step, id: int)
    requires Owned(s) && Enabled(s, step)
    requires id in s.rows && s.rows[id].status.Pending? && s.rows[id].nextAttemptAt.Some? &&
             s.now < s.rows[id].nextAttemptAt.value
    ensures var t := Do(settings, s, step); id in t.rows && (t.rows[id] == s.rows[id] || t.rows[id].status.Failed?)
  {
  }

  lemma {:induction false} TimeMovesOn(settings: Settings, s: Sys, steps: seq<Step>)
    requires CanRun(settings, s, steps)
    ensures RunAll(settings, s, steps).now >= s.now
    decreases |steps|
  {
    if steps != [] {
      TimeMovesOn(settings, Do(settings, s, steps[0]), steps[1..]);
    }
  }

  /** Backoff and deferral are kept: over any run in time a row put back to wait is not claimed, by any
      worker, before its wait is over. */
  lemma {:induction false} WaitsAreKept(settings: Settings, s: Sys, steps: seq<Step>, id: int)
    requires Owned(s) && CommittedOnce(s) && CanRun(settings, s, steps) && RunsInTime(settings, s, steps)
    requires id in s.rows && s.rows[id].status.Pending? && s.rows[id].nextAttemptAt.Some?
    requires RunAll(settings, s, steps).now < s.rows[id].nextAttemptAt.value
    ensures var t := RunAll(settings, s, steps); id in t.rows && (t.rows[id] == s.rows[id] || t.rows[id].status.Failed?)
    decreases |steps|
  {
    if steps != [] {
      var next := Do(settings, s, steps[0]);
      TimeMovesOn(settings, s, steps);
      WaitingRowStays(settings, s, steps[0], id);
      StepKeepsOwnership(settings, s, steps[0]);
      StepKeepsCommits(settings, s, steps[0]);
      if next.rows[id] == s.rows[id] {
        WaitsAreKept(settings, next, steps[1..], id);
      } else {
        RunsInTimeAreSafe(settings, next, steps[1..]);
      }
    }
  }

  /** No worker holds the row, and none can claim it. */
  ghost predicate LeftWaiting(s: Sys, id: int) {
    && id in s.rows && s.rows[id].status != Processing && s.rows[id].status != Done
    && (forall c :: c in s.live ==> c.job.id != id)
    && forall worker :: !Enabled(s, ClaimRow(worker, id))
  }

  lemma WaitingIsLeft(s: Sys, id: int, until: real)
    requires Owned(s) && id in s.rows && s.now < until
    requires s.rows[id].status.Failed? || (s.rows[id].status.Pending? && s.rows[id].nextAttemptAt == Some(until))
    ensures LeftWaiting(s, id)
  {
  }

  /** A row deferred for some seconds is held and claimed by nobody in any run in time, whatever else
      happens, until they have passed. */
  lemma DeferralIsKept(settings: Settings, s: Sys, c: Claim, seconds: real, steps: seq<Step>)
    requires Owned(s) && CommittedOnce(s) && Enabled(s, Defer(c, seconds))
    requires var next := Do(settings, s, Defer(c, seconds));
             CanRun(settings, next, steps) && RunsInTime(settings, next, steps) &&
             RunAll(settings, next, steps).now < s.now + seconds
    ensures LeftWaiting(RunAll(settings, Do(settings, s, Defer(c, seconds)), steps), c.job.id)
  {
    WaitIsKept(settings, s, Defer(c, seconds), steps, c.job.id, s.now + seconds);
  }

  /** A row put back after a failure likewise, for the backoff of the attempt that failed. */
  lemma RetryIsKept(settings: Settings, s: Sys, c: Claim, steps: seq<Step>)
    requires Owned(s) && CommittedOnce(s) && Enabled(s, Retry(c)) && 1 <= c.job.attempts < c.job.maxAttempts
    requires var next := Do(settings, s, Retry(c));
             CanRun(settings, next, steps) && RunsInTime(settings, next, steps) &&
             RunAll(settings, next, steps).now < s.now + settings.retryBackoffMax &&
             RunAll(settings, next, steps).now < s.now + settings.retryBackoff * PowerOfTwo(c.job.attempts - 1)
    ensures LeftWaiting(RunAll(settings, Do(settings, s, Retry(c)), steps), c.job.id)
  {
    DelayInFull(settings, c.job.attempts);
    WaitIsKept(settings, s, Retry(c), steps, c.job.id, s.now + RetryDelay(settings, c.job.attempts));
  }

  lemma WaitIsKept(settings: Settings, s: Sys, step: Step, steps: seq<Step>, id: int, until: real)
    requires Owned(s) && CommittedOnce(s) && Enabled(s, step) && !step.Sweep?
    requires var next := Do(settings, s, step);
             && CanRun(settings, next, steps) && RunsInTime(settings, next, steps)
             && RunAll(settings, next, steps).now < until
             && id in next.rows && next.rows[id].status.Pending? && next.rows[id].nextAttemptAt == Some(until)
    ensures LeftWaiting(RunAll(settings, Do(settings, s, step), steps), id)
  {
    hide Do, LeftWaiting, CanRun, RunAll;
    var next := Do(settings, s, step);
    StepKeepsOwnership(settings, s, step);
    StepKeepsCommits(settings, s, step);
    WaitsAreKept(settings, next, steps, id);
    RunsInTimeAreSafe(settings, next, steps);
    WaitingIsLeft(RunAll(settings, next, steps), id, until);
  }

  /** The assumption is exactly what a sweep needs: it leaves every claim owned if and only if no live
      claim is older than the timeout. */
  lemma SweepKeepsOwnershipIff(settings: Settings, s: Sys)
    requires Owned(s)
    ensures Owned(Do(settings, s, Sweep)) <==> NoLiveClaimIsStuck(settings, s)
  {
    if NoLiveClaimIsStuck(settings, s) {
      StepKeepsOwnership(settings, s, Sweep);
    } else {
      var c :| c in s.live && c.lockedAt < s.now - settings.reaperTimeout;
      assert Stuck(settings, s.rows[c.job.id], s.now);
      assert !Do(settings, s, Sweep).rows[c.job.id].status.Processing?;
    }
  }

  /** A reaper that fires on a running worker breaks both, from any state and for any row with attempts
      left: another worker claims and commits the row, and the first one may then commit the same
      writes again, or put the done row back to pending. */
  lemma ReapingALiveWorkerDuplicates(settings: Settings, s: Sys, first: Claim, other: int)
    requires Owned(s) && CommittedOnce(s) && first in s.live
    requires Stuck(settings, s.rows[first.job.id], s.now) && first.job.attempts < first.job.maxAttempts
    ensures var id := first.job.id;
            var reaped := Do(settings, s, Sweep);
            && Enabled(reaped, ClaimRow(other, id))
            && var claimed := Do(settings, reaped, ClaimRow(other, id));
               var second := NewClaim(reaped, other, id);
               && Enabled(claimed, Commit(second, map[]))
               && var done := Do(settings, claimed, Commit(second, map[]));
                  && done.rows[id].status.Done?
                  && Enabled(done, Commit(first, map[])) && Enabled(done, Retry(first))
                  && multiset(Do(settings, done, Commit(first, map[])).committed)[id] == 2
                  && Do(settings, done, Retry(first)).rows[id].status.Pending?
  {
    var id := first.job.id;
    var reaped := Do(settings, s, Sweep);
    var claimed := Do(settings, reaped, ClaimRow(other, id));
    var second := NewClaim(reaped, other, id);
    var done := Do(settings, claimed, Commit(second, map[]));
    hide CommittedOnce;
    assert first.token != second.token;
    assert multiset(done.committed) == multiset(s.committed) + multiset{id};
    assert multiset(Do(settings, done, Commit(first, map[])).committed) ==
           multiset(s.committed) + multiset{id} + multiset{id};
  }
}
