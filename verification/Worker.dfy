/**
  One worker process: claim a batch and commit the claim, handle each row in its own transaction,
  sweep only between batches.
 */
module Worker {
  import opened Wrappers
  import opened Queue
  import opened Protocol

  /** How the handling of one claimed row ends. A success enqueues the rows its handler inserted. */
  datatype Outcome =
    | Succeeds(enqueued: Rows)
    | RateLimited(retryAfter: real)
    | Raises
    | Dies

  /** What the outside decides of each claimed row: how its handling ends, and how long it takes. */
  datatype Handler = Handler(outcomeOf: (Rows, int) -> Outcome, secondsOf: int -> real)

  ghost predicate Lawful(handler: Handler) {
    && (forall rows: Rows, id: int ::
          handler.outcomeOf(rows, id).Succeeds? ==> Fresh(rows, handler.outcomeOf(rows, id).enqueued))
    && (forall id: int :: handler.secondsOf(id) >= 0.0)
  }

  // ---------------------------------------------------------------------------------------------
  // A batch claim as protocol steps
  // ---------------------------------------------------------------------------------------------

  ghost predicate Safe(s: Sys) {
    Owned(s) && CommittedOnce(s) && Counted(s)
  }

  ghost predicate AllClaimable(s: Sys, batch: seq<int>) {
    && (forall id :: id in batch ==> id in s.rows && Claimable(s.rows[id], s.now))
    && (forall p, q :: 0 <= p < q < |batch| ==> batch[p] != batch[q])
  }

  /** The claim of the i-th row of a batch. */
  ghost predicate IsClaimOf(c: Claim, rows: Rows, id: int, me: int) {
    && id in rows && c.worker == me
    && c.job == ClaimedJob(id, rows[id].jobType, rows[id].attempts + 1, rows[id].maxAttempts)
  }

  ghost predicate AreClaimsOf(claims: seq<Claim>, rows: Rows, batch: seq<int>, me: int) {
    |claims| <= |batch| && forall i :: 0 <= i < |claims| ==> IsClaimOf(claims[i], rows, batch[i], me)
  }

  lemma ClaimFirstRow(settings: Settings, s: Sys, me: int, batch: seq<int>)
    requires Safe(s) && AllClaimable(s, batch) && batch != []
    ensures Enabled(s, ClaimRow(me, batch[0]))
    ensures var next := Do(settings, s, ClaimRow(me, batch[0]));
            && Safe(next) && AllClaimable(next, batch[1..]) && next.committed == s.committed && next.now == s.now
            && next.live == s.live + {NewClaim(s, me, batch[0])}
            && ClaimedRows(next.rows, batch[1..], s.now) == ClaimedRows(s.rows, batch, s.now)
            && forall id :: id in batch[1..] ==> id in s.rows && next.rows[id] == s.rows[id]
  {
    var id, rest := batch[0], batch[1..];
    assert batch == [id] + rest;
    assert id !in rest;
    var step := ClaimRow(me, id);
    StepKeepsOwnership(settings, s, step);
    StepKeepsCommits(settings, s, step);
    StepKeepsCounts(settings, s, step);
  }

  /** The claims of a batch are distinct, so recording one leaves the rest live. */
  lemma RestOfBatch(claims: seq<Claim>, i: nat)
    requires i < |claims| && Distinct(claims)
    ensures claims[i] in Elements(claims[i..])
    ensures Elements(claims[i..]) - {claims[i]} == Elements(claims[i + 1..])
  {
    assert claims[i..] == [claims[i]] + claims[i + 1..];
    assert claims[i] !in claims[i + 1..];
  }

  ghost predicate Distinct(claims: seq<Claim>) {
    forall i, j :: 0 <= i < j < |claims| ==> claims[i].job.id != claims[j].job.id
  }

  // ---------------------------------------------------------------------------------------------
  // What a pass over a batch is
  // ---------------------------------------------------------------------------------------------

  function ClaimSteps(me: int, ids: seq<int>): seq<Step> {
    if ids == [] then [] else ClaimSteps(me, ids[..|ids| - 1]) + [ClaimRow(me, ids[|ids| - 1])]
  }

  /** How a claim is answered: committed with the rows its handler inserted, deferred, retried, or left
      behind by the death of the process. */
  function AnswerStep(me: int, c: Claim, outcome: Outcome): Step {
    match outcome
    case Succeeds(enqueued) => Commit(c, enqueued)
    case RateLimited(seconds) => Defer(c, seconds)
    case Raises => Retry(c)
    case Dies => Crash(me)
  }

  function AnswerSteps(me: int, handler: Handler, c: Claim, outcome: Outcome): seq<Step> {
    [Tick(handler.secondsOf(c.job.id)), AnswerStep(me, c, outcome)]
  }

  /** One claimed row is handled, for as long as that takes, and answered as its handling ends. */
  ghost predicate Answered(
    settings: Settings, me: int, handler: Handler, s: Sys, c: Claim, outcome: Outcome, t: Sys)
  {
    Ran(settings, s, AnswerSteps(me, handler, c, outcome), t) && outcome == handler.outcomeOf(s.rows, c.job.id)
  }

  /** A batch: the ids claimed, their claims, how the claims were answered one after the other, and the
      states between the answers. */
  datatype Pass = Pass(ids: seq<int>, claims: seq<Claim>, outcomes: seq<Outcome>, marks: seq<Sys>)

  function AllAnswers(me: int, handler: Handler, claims: seq<Claim>, outcomes: seq<Outcome>): seq<Step>
    requires |outcomes| <= |claims|
  {
    if outcomes == [] then []
    else
      var last := |outcomes| - 1;
      AllAnswers(me, handler, claims, outcomes[..last]) + AnswerSteps(me, handler, claims[last], outcomes[last])
  }

  function PassSteps(me: int, handler: Handler, p: Pass): seq<Step>
    requires |p.outcomes| <= |p.claims|
  {
    ClaimSteps(me, p.ids) + AllAnswers(me, handler, p.claims, p.outcomes)
  }

  ghost predicate IsAnswering(settings: Settings, me: int, handler: Handler, p: Pass) {
    && |p.outcomes| <= |p.claims| && |p.marks| == |p.outcomes| + 1
    && (forall i :: 0 <= i < |p.outcomes| ==>
          Answered(settings, me, handler, p.marks[i], p.claims[i], p.outcomes[i], p.marks[i + 1]))
    && (forall i :: 0 <= i < |p.outcomes| - 1 ==> !p.outcomes[i].Dies?)
  }

  /** Exactly the batch is claimed, and every claim of it is answered unless the process dies. */
  ghost predicate IsPass(settings: Settings, me: int, handler: Handler, limit: nat, s: Sys, p: Pass, t: Sys) {
    && p.ids == Batch(s.rows, Candidates(s.rows, {}, s.now), limit)
    && |p.claims| == |p.ids| && AreClaimsOf(p.claims, s.rows, p.ids, me)
    && IsAnswering(settings, me, handler, p)
    && Ran(settings, s, ClaimSteps(me, p.ids), p.marks[0])
    && p.marks[0].live == Elements(p.claims)
    && t == p.marks[|p.outcomes|]
    && (|p.outcomes| < |p.claims| ==> p.outcomes != [] && p.outcomes[|p.outcomes| - 1].Dies?)
  }

  /** A pass of which some claims are still to be answered. */
  ghost predicate Underway(settings: Settings, me: int, handler: Handler, s: Sys, p: Pass, t: Sys) {
    && IsAnswering(settings, me, handler, p)
    && t == p.marks[|p.outcomes|]
    && Ran(settings, s, PassSteps(me, handler, p), t)
  }

  lemma UnderwayMarks(settings: Settings, me: int, handler: Handler, s: Sys, p: Pass, t: Sys)
    requires Underway(settings, me, handler, s, p, t)
    ensures |p.marks| == |p.outcomes| + 1 && t == p.marks[|p.outcomes|] && |p.outcomes| <= |p.claims|
  {
  }

  lemma AnsweredOneMore(
    settings: Settings, me: int, handler: Handler, s: Sys, p: Pass, outcome: Outcome, t: Sys)
    requires |p.marks| == |p.outcomes| + 1
    requires Underway(settings, me, handler, s, p, p.marks[|p.outcomes|]) && |p.outcomes| < |p.claims|
    requires p.outcomes == [] || !p.outcomes[|p.outcomes| - 1].Dies?
    requires Answered(settings, me, handler, p.marks[|p.outcomes|], p.claims[|p.outcomes|], outcome, t)
    ensures var q := p.(outcomes := p.outcomes + [outcome], marks := p.marks + [t]);
            Underway(settings, me, handler, s, q, t)
  {
    var n := |p.outcomes|;
    var q := p.(outcomes := p.outcomes + [outcome], marks := p.marks + [t]);
    assert q.outcomes[..n] == p.outcomes;
    var more := AnswerSteps(me, handler, p.claims[n], outcome);
    RanOn(settings, s, PassSteps(me, handler, p), p.marks[n], more, t);
    assert PassSteps(me, handler, q) == PassSteps(me, handler, p) + more;
  }

  /** The first claims of a batch have been made. */
  ghost predicate Claiming(settings: Settings, me: int, start: Sys, batch: seq<int>, claims: seq<Claim>, s: Sys) {
    && Safe(s) && s.now == start.now && s.committed == start.committed
    && |claims| <= |batch| && AllClaimable(s, batch[|claims|..])
    && ClaimedRows(s.rows, batch[|claims|..], s.now) == ClaimedRows(start.rows, batch, s.now)
    && (forall id :: id in batch[|claims|..] ==> id in start.rows && s.rows[id] == start.rows[id])
    && AreClaimsOf(claims, start.rows, batch, me)
    && s.live == Elements(claims)
    && Ran(settings, start, ClaimSteps(me, batch[..|claims|]), s)
  }

  lemma NothingClaimedYet(settings: Settings, me: int, s: Sys, batch: seq<int>)
    requires Safe(s) && AllClaimable(s, batch) && s.live == {}
    ensures Claiming(settings, me, s, batch, [], s)
  {
    assert batch[0..] == batch && batch[..0] == [];
  }

  lemma ClaimedOneMore(settings: Settings, me: int, start: Sys, batch: seq<int>, claims: seq<Claim>, s: Sys)
    requires Claiming(settings, me, start, batch, claims, s) && |claims| < |batch|
    ensures var step := ClaimRow(me, batch[|claims|]);
            && Enabled(s, step)
            && Claiming(settings, me, start, batch, claims + [NewClaim(s, me, batch[|claims|])], Do(settings, s, step))
  {
    var n, todo := |claims|, batch[|claims|..];
    var c, step := NewClaim(s, me, batch[n]), ClaimRow(me, batch[n]);
    assert todo[0] == batch[n] && todo[0] in todo && todo[1..] == batch[n + 1..];
    ClaimFirstRow(settings, s, me, todo);
    ClaimStepOneMore(settings, me, start, batch, n, s);
    assert Elements(claims + [c]) == Elements(claims) + {c};
  }

  lemma ClaimStepOneMore(settings: Settings, me: int, start: Sys, batch: seq<int>, n: nat, s: Sys)
    requires n < |batch| && Ran(settings, start, ClaimSteps(me, batch[..n]), s) && Enabled(s, ClaimRow(me, batch[n]))
    ensures Ran(settings, start, ClaimSteps(me, batch[..n + 1]), Do(settings, s, ClaimRow(me, batch[n])))
  {
    var step := ClaimRow(me, batch[n]);
    RanOne(settings, s, step);
    RanOn(settings, start, ClaimSteps(me, batch[..n]), s, [step], Do(settings, s, step));
    assert batch[..n + 1][..n] == batch[..n];
  }

  lemma AllClaimed(settings: Settings, me: int, start: Sys, batch: seq<int>, claims: seq<Claim>, s: Sys)
    requires Claiming(settings, me, start, batch, claims, s) && |claims| == |batch|
    ensures s.rows == ClaimedRows(start.rows, batch, s.now)
    ensures Ran(settings, start, ClaimSteps(me, batch), s)
  {
    assert batch[|claims|..] == [] && batch[..|claims|] == batch;
    assert ClaimedRows(s.rows, [], s.now) == s.rows;
  }

  /** A pass begins with the batch claimed and nothing answered. */
  lemma UnderwayAtFirst(
    settings: Settings, me: int, handler: Handler, s: Sys, ids: seq<int>, claims: seq<Claim>, t: Sys)
    requires Ran(settings, s, ClaimSteps(me, ids), t)
    ensures Underway(settings, me, handler, s, Pass(ids, claims, [], [t]), t)
  {
    assert ClaimSteps(me, ids) + [] == ClaimSteps(me, ids);
  }

  // ---------------------------------------------------------------------------------------------
  // What a pass does to the rows it claimed
  // ---------------------------------------------------------------------------------------------

  /** The row of a claim answered at an instant: done; or waiting as long as it was told to, with its attempt
      back; or waiting out the backoff of the attempt that failed, or failed if that was the last. */
  predicate RowAnswered(settings: Settings, row: Row, job: ClaimedJob, outcome: Outcome, at: real) {
    match outcome
    case Succeeds(_) => row.status == Done && row.completedAt == Some(at)
    case RateLimited(seconds) =>
      row.status == Pending && row.attempts == job.attempts - 1 && row.nextAttemptAt == Some(at + seconds)
    case Raises =>
      && row.attempts == job.attempts
      && if job.attempts >= job.maxAttempts then row.status == Failed && row.completedAt == Some(at)
         else row.status == Pending && (job.attempts >= 1 ==> BackedOff(settings, row, job.attempts, at))
    case Dies => row.status == Processing && row.attempts == job.attempts
  }

  predicate BackedOff(settings: Settings, row: Row, attempts: int, at: real)
    requires attempts >= 1
  {
    var delay := settings.retryBackoff * PowerOfTwo(attempts - 1);
    row.nextAttemptAt == Some(at + if delay < settings.retryBackoffMax then delay else settings.retryBackoffMax)
  }

  lemma RetriedBacksOff(settings: Settings, row: Row, job: ClaimedJob, at: real)
    requires 1 <= job.attempts < job.maxAttempts
    ensures BackedOff(settings, Retried(settings, row, job, at), job.attempts, at)
  {
    DelayInFull(settings, job.attempts);
  }

  lemma AnswerLeaves(settings: Settings, me: int, s: Sys, c: Claim, outcome: Outcome)
    requires Owned(s) && c in s.live && Enabled(s, AnswerStep(me, c, outcome))
    ensures var t := Do(settings, s, AnswerStep(me, c, outcome));
            && c.job.id in t.rows && RowAnswered(settings, t.rows[c.job.id], c.job, outcome, s.now)
            && (forall id :: id in s.rows && id != c.job.id ==> id in t.rows && t.rows[id] == s.rows[id])
            && (!outcome.Dies? ==> t.live == s.live - {c})
            && t.committed == s.committed + if outcome.Succeeds? then [c.job.id] else []
  {
    hide BackedOff, RetryDelay;
    if outcome.Raises? && 1 <= c.job.attempts < c.job.maxAttempts {
      RetriedBacksOff(settings, s.rows[c.job.id], c.job, s.now);
    }
  }

  lemma AnswerIsTheRows(
    settings: Settings, me: int, handler: Handler, s: Sys, c: Claim, outcome: Outcome, t: Sys)
    requires Owned(s) && c in s.live && Answered(settings, me, handler, s, c, outcome, t)
    ensures Owned(t) && c.job.id in t.rows && RowAnswered(settings, t.rows[c.job.id], c.job, outcome, t.now)
    ensures forall id :: id in s.rows && id != c.job.id ==> id in t.rows && t.rows[id] == s.rows[id]
    ensures !outcome.Dies? ==> t.live == s.live - {c}
    ensures t.committed == s.committed + if outcome.Succeeds? then [c.job.id] else []
  {
    var sleep, answer := Tick(handler.secondsOf(c.job.id)), AnswerStep(me, c, outcome);
    hide RowAnswered, Retried;
    RanTwo(settings, s, sleep, answer, t);
    StepKeepsOwnership(settings, Do(settings, s, sleep), answer);
    AnswerLeaves(settings, me, Do(settings, s, sleep), c, outcome);
  }

  /** In the state after n answers the row of the i-th claim is as its answer left it. */
  ghost predicate AnsweredAt(settings: Settings, p: Pass, n: nat, i: nat)
    requires i < |p.outcomes| <= |p.claims| && i + 1 < |p.marks| && n < |p.marks|
  {
    && p.claims[i].job.id in p.marks[n].rows
    && RowAnswered(settings, p.marks[n].rows[p.claims[i].job.id], p.claims[i].job, p.outcomes[i], p.marks[i + 1].now)
  }

  ghost predicate RowsSoFar(settings: Settings, p: Pass, n: nat)
    requires n < |p.marks| && n <= |p.outcomes| <= |p.claims|
  {
    && Owned(p.marks[n])
    && (forall i :: 0 <= i < |p.claims| ==> p.claims[i].job.id in p.marks[n].rows)
    && (forall i :: 0 <= i < n ==> AnsweredAt(settings, p, n, i))
    && (n == 0 || !p.outcomes[n - 1].Dies? ==> forall i :: n <= i < |p.claims| ==> p.claims[i] in p.marks[n].live)
    && forall i :: n <= i < |p.claims| ==>
         var row := p.marks[n].rows[p.claims[i].job.id];
         row.status.Processing? && row.attempts == p.claims[i].job.attempts
  }

  lemma {:induction false} RowsAreAnswered(settings: Settings, me: int, handler: Handler, p: Pass, n: nat)
    requires IsAnswering(settings, me, handler, p) && n <= |p.outcomes| && Distinct(p.claims)
    requires Owned(p.marks[0]) && p.marks[0].live == Elements(p.claims)
    ensures RowsSoFar(settings, p, n)
  {
    hide RowAnswered;
    if n > 0 {
      RowsAreAnswered(settings, me, handler, p, n - 1);
      AnswerIsTheRows(settings, me, handler, p.marks[n - 1], p.claims[n - 1], p.outcomes[n - 1], p.marks[n]);
      OneRowMore(settings, p, n);
    }
  }

  lemma OneRowMore(settings: Settings, p: Pass, n: nat)
    requires 0 < n < |p.marks| && n <= |p.outcomes| <= |p.claims| && Distinct(p.claims)
    requires RowsSoFar(settings, p, n - 1)
    requires n == 1 || !p.outcomes[n - 2].Dies?
    requires Owned(p.marks[n]) && p.claims[n - 1].job.id in p.marks[n].rows
    requires AnsweredAt(settings, p, n, n - 1)
    requires forall id :: id in p.marks[n - 1].rows && id != p.claims[n - 1].job.id ==>
               id in p.marks[n].rows && p.marks[n].rows[id] == p.marks[n - 1].rows[id]
    requires !p.outcomes[n - 1].Dies? ==> p.marks[n].live == p.marks[n - 1].live - {p.claims[n - 1]}
    ensures RowsSoFar(settings, p, n)
  {
    hide RowAnswered;
    forall i | 0 <= i < n - 1
      ensures AnsweredAt(settings, p, n, i)
    {
      assert AnsweredAt(settings, p, n - 1, i);
    }
    forall i | 0 <= i < |p.claims| && i != n - 1
      ensures p.claims[i].job.id != p.claims[n - 1].job.id && p.claims[i] != p.claims[n - 1]
    {
    }
  }

  /** After a pass every row of the batch is done, deferred or retried as its handler said; only where the
      process died is a row still processing, for the reaper to find. */
  lemma EveryClaimIsAnswered(
    settings: Settings, me: int, handler: Handler, limit: nat, s: Sys, p: Pass, t: Sys, i: nat)
    requires Safe(s) && s.live == {} && IsPass(settings, me, handler, limit, s, p, t) && i < |p.ids|
    ensures p.ids[i] in t.rows
    ensures i < |p.outcomes| ==>
              RowAnswered(settings, t.rows[p.ids[i]], p.claims[i].job, p.outcomes[i], p.marks[i + 1].now)
    ensures i >= |p.outcomes| ==>
              t.rows[p.ids[i]].status.Processing? && p.outcomes != [] && p.outcomes[|p.outcomes| - 1].Dies?
  {
    hide RowAnswered, IsAnswering, IsPass, ClaimSteps, Batch, Ran;
    PassBegins(settings, me, handler, limit, s, p, t);
    RowsAreAnswered(settings, me, handler, p, |p.outcomes|);
    assert i < |p.outcomes| ==> AnsweredAt(settings, p, |p.outcomes|, i);
  }

  /** What a pass begins with and ends in. */
  lemma PassBegins(settings: Settings, me: int, handler: Handler, limit: nat, s: Sys, p: Pass, t: Sys)
    requires Safe(s) && s.live == {} && IsPass(settings, me, handler, limit, s, p, t)
    ensures IsAnswering(settings, me, handler, p) && Distinct(p.claims)
    ensures |p.marks| == |p.outcomes| + 1 && |p.outcomes| <= |p.claims| && |p.claims| == |p.ids|
    ensures t == p.marks[|p.outcomes|] && Owned(p.marks[0]) && p.marks[0].live == Elements(p.claims)
    ensures forall i :: 0 <= i < |p.ids| ==> p.claims[i].job.id == p.ids[i]
    ensures |p.outcomes| < |p.claims| ==> p.outcomes != [] && p.outcomes[|p.outcomes| - 1].Dies?
  {
    hide Batch, ClaimSteps;
    BatchTakesTheFirst(s.rows, Candidates(s.rows, {}, s.now), limit);
    RunsInTimeAreSafe(settings, s, ClaimSteps(me, p.ids));
    assert forall i :: 0 <= i < |p.ids| ==> IsClaimOf(p.claims[i], s.rows, p.ids[i], me);
  }

  // ---------------------------------------------------------------------------------------------
  // What a round of the loop is
  // ---------------------------------------------------------------------------------------------

  function RoundSteps(me: int, handler: Handler, due: bool, pollSeconds: real, p: Pass): seq<Step>
    requires |p.outcomes| <= |p.claims|
  {
    (if due then [Step.Sweep] else []) + PassSteps(me, handler, p) + if p.ids == [] then [Tick(pollSeconds)] else []
  }

  /** A sweep if one is due, a pass, and a pause if the pass found nothing. */
  ghost predicate IsRound(
    settings: Settings, me: int, handler: Handler, limit: nat, due: bool, pollSeconds: real, s: Sys, p: Pass, t: Sys)
  {
    && p.marks != [] && pollSeconds >= 0.0
    && IsPass(settings, me, handler, limit, if due then Do(settings, s, Step.Sweep) else s, p, p.marks[|p.marks| - 1])
    && t == if p.ids == [] then Do(settings, p.marks[|p.marks| - 1], Tick(pollSeconds)) else p.marks[|p.marks| - 1]
  }

  function LoopSteps(
    me: int, handler: Handler, sweepDue: nat -> bool, pollSeconds: real, passes: seq<Pass>): seq<Step>
    requires forall p :: p in passes ==> |p.outcomes| <= |p.claims|
  {
    if passes == [] then []
    else
      var last := |passes| - 1;
      LoopSteps(me, handler, sweepDue, pollSeconds, passes[..last]) +
      RoundSteps(me, handler, sweepDue(last), pollSeconds, passes[last])
  }

  /** What the loop is given. */
  datatype Loop = Loop(
    settings: Settings, me: int, handler: Handler, limit: nat, sweepDue: nat -> bool, pollSeconds: real)

  ghost predicate Looped(l: Loop, s: Sys, passes: seq<Pass>, marks: seq<Sys>, t: Sys) {
    && |marks| == |passes| + 1 && marks[0] == s && marks[|passes|] == t
    && (forall r :: 0 <= r < |passes| ==>
          IsRound(l.settings, l.me, l.handler, l.limit, l.sweepDue(r), l.pollSeconds, marks[r], passes[r],
            marks[r + 1]))
    && (forall p :: p in passes ==> |p.outcomes| <= |p.claims|)
    && Ran(l.settings, s, LoopSteps(l.me, l.handler, l.sweepDue, l.pollSeconds, passes), t)
  }

  lemma LoopedOnceMore(l: Loop, s: Sys, passes: seq<Pass>, marks: seq<Sys>, t: Sys, p: Pass, u: Sys)
    requires Looped(l, s, passes, marks, t)
    requires IsRound(l.settings, l.me, l.handler, l.limit, l.sweepDue(|passes|), l.pollSeconds, t, p, u)
    requires |p.outcomes| <= |p.claims|
    requires Ran(l.settings, t, RoundSteps(l.me, l.handler, l.sweepDue(|passes|), l.pollSeconds, p), u)
    ensures Looped(l, s, passes + [p], marks + [u], u)
  {
    hide IsRound, Ran, RoundSteps;
    RanOn(l.settings, s, LoopSteps(l.me, l.handler, l.sweepDue, l.pollSeconds, passes), t,
          RoundSteps(l.me, l.handler, l.sweepDue(|passes|), l.pollSeconds, p), u);
    var all, ends := passes + [p], marks + [u];
    assert all[..|passes|] == passes;
    forall r | 0 <= r < |all|
      ensures IsRound(l.settings, l.me, l.handler, l.limit, l.sweepDue(r), l.pollSeconds, ends[r], all[r], ends[r + 1])
    {
    }
  }

  // ---------------------------------------------------------------------------------------------
  // The process
  // ---------------------------------------------------------------------------------------------

  class Process {
    const me: int
    const table: Table
    var now: real
    ghost var sys: Sys

    /** The protocol state is the table, and this process is its only worker. */
    ghost predicate Valid()
      reads this, table
    {
      && table.rows == sys.rows && now == sys.now
      && Safe(sys)
      && forall c :: c in sys.live ==> c.worker == me
    }

    ghost predicate Idle()
      reads this, table
    {
      Valid() && sys.live == {}
    }

    constructor (me: int, settings: Settings)
      ensures Idle() && fresh(table) && table.settings == settings && sys == START
    {
      this.me := me;
      this.table := new Table(settings);
      now := 0.0;
      sys := START;
    }

    ghost method Advance(step: Step)
      requires Safe(sys) && Enabled(sys, step) && InTime(table.settings, sys, step)
      modifies this`sys
      ensures sys == Do(table.settings, old(sys), step)
      ensures Safe(sys)
    {
      StepKeepsOwnership(table.settings, sys, step);
      StepKeepsCommits(table.settings, sys, step);
      StepKeepsCounts(table.settings, sys, step);
      sys := Do(table.settings, sys, step);
    }

    /** Webhooks and commands put rows on the queue. */
    method Enqueue(rows: Rows)
      requires Valid() && Fresh(table.rows, rows)
      modifies this`sys, table`rows
      ensures Valid() && sys == Do(table.settings, old(sys), Insert(rows))
    {
      Advance(Insert(rows));
      table.rows := table.rows + rows;
    }

    method Sleep(seconds: real)
      requires Valid() && seconds >= 0.0
      modifies this`sys, this`now
      ensures Valid() && sys == Do(table.settings, old(sys), Tick(seconds))
    {
      Advance(Tick(seconds));
      now := now + seconds;
    }

    /** Claiming a batch in one statement is claiming its rows one after the other at one instant. */
    ghost method ClaimEach(batch: seq<int>) returns (claims: seq<Claim>)
      requires Safe(sys) && AllClaimable(sys, batch) && sys.live == {}
      modifies this`sys
      ensures Safe(sys) && sys.now == old(sys.now) && sys.committed == old(sys.committed)
      ensures sys.rows == ClaimedRows(old(sys.rows), batch, sys.now)
      ensures |claims| == |batch| && AreClaimsOf(claims, old(sys.rows), batch, me)
      ensures sys.live == Elements(claims)
      ensures Ran(table.settings, old(sys), ClaimSteps(me, batch), sys)
    {
      ghost var start := sys;
      claims := [];
      NothingClaimedYet(table.settings, me, sys, batch);
      while |claims| < |batch|
        invariant |claims| <= |batch| && Claiming(table.settings, me, start, batch, claims, sys)
      {
        ghost var id, before := batch[|claims|], sys;
        ClaimedOneMore(table.settings, me, start, batch, claims, sys);
        Advance(ClaimRow(me, id));
        claims := claims + [NewClaim(before, me, id)];
      }
      AllClaimed(table.settings, me, start, batch, claims, sys);
    }

    /** The jobs are those of the batch, and this process holds exactly their claims. */
    method ClaimBatch(limit: nat) returns (jobs: seq<ClaimedJob>, ghost claims: seq<Claim>)
      requires Idle()
      modifies this`sys, table`rows
      ensures Valid() && |claims| == |jobs| && Distinct(claims)
      ensures sys.live == Elements(claims) && sys.committed == old(sys.committed) && sys.now == old(sys.now)
      ensures forall i :: 0 <= i < |jobs| ==> claims[i].job == jobs[i]
      ensures sys.rows.Keys == old(sys.rows.Keys)
      ensures var batch := Batch(old(sys.rows), Candidates(old(sys.rows), {}, old(sys.now)), limit);
              && |jobs| == |batch| && AreClaimsOf(claims, old(sys.rows), batch, me)
              && Ran(table.settings, old(sys), ClaimSteps(me, batch), sys)
    {
      ghost var batch := Batch(table.rows, Candidates(table.rows, {}, now), limit);
      BatchTakesTheFirst(table.rows, Candidates(table.rows, {}, now), limit);
      jobs := table.ClaimBatch(limit, {}, now);
      ghost var rows := sys.rows;
      claims := ClaimEach(batch);
      forall i | 0 <= i < |jobs|
        ensures claims[i].job == jobs[i] && claims[i].worker == me && claims[i].job.id == batch[i]
      {
        assert batch[i] in batch && IsClaimOf(claims[i], rows, batch[i], me);
      }
    }

    /** One claimed row, in its own transaction. */
    method Process(job: ClaimedJob, ghost claim: Claim, outcome: Outcome) returns (alive: bool)
      requires Valid() && claim in sys.live && claim.job == job && job.id in table.rows
      requires outcome.Succeeds? ==> Fresh(table.rows, outcome.enqueued)
      modifies this`sys, table`rows
      ensures Valid() && now == old(now)
      ensures alive == !outcome.Dies?
      ensures sys.live == if alive then old(sys.live) - {claim} else {}
      ensures sys.committed == old(sys.committed) + if outcome.Succeeds? then [job.id] else []
      ensures job.id in table.rows && RowAnswered(table.settings, table.rows[job.id], job, outcome, now)
      ensures table.rows.Keys == old(table.rows.Keys) + if outcome.Succeeds? then outcome.enqueued.Keys else {}
      ensures outcome.Dies? ==> table.rows == old(table.rows)
      ensures Ran(table.settings, old(sys), [AnswerStep(me, claim, outcome)], sys)
    {
      hide RowAnswered, Retried, RetryDelay, Deferred, Completed, CommittedOnce, Counted;
      RanOne(table.settings, sys, AnswerStep(me, claim, outcome));
      AnswerLeaves(table.settings, me, sys, claim, outcome);
      alive := true;
      match outcome {
        case Succeeds(enqueued) =>
          Advance(Commit(claim, enqueued));
          table.MarkDone(job.id, now);
          table.rows := table.rows + enqueued;
        case RateLimited(seconds) =>
          Advance(Defer(claim, seconds));
          table.Defer(job, seconds, now);
        case Raises =>
          Advance(Retry(claim));
          var _ := table.MarkForRetry(job, now);
        case Dies =>
          Advance(Crash(me));
          alive := false;
      }
    }

    /** The next claimed row, after however long its handler takes. */
    method ProcessNext(jobs: seq<ClaimedJob>, ghost claims: seq<Claim>, i: nat, handler: Handler)
      returns (alive: bool, ghost outcome: Outcome)
      requires Valid() && i < |jobs| == |claims| && Distinct(claims) && Lawful(handler)
      requires forall j :: 0 <= j < |jobs| ==> claims[j].job == jobs[j]
      requires sys.live == Elements(claims[i..])
      modifies this`sys, this`now, table`rows
      ensures Valid() && alive == !outcome.Dies?
      ensures sys.live == if alive then Elements(claims[i + 1..]) else {}
      ensures Answered(table.settings, me, handler, old(sys), claims[i], outcome, sys)
    {
      RestOfBatch(claims, i);
      outcome := handler.outcomeOf(table.rows, jobs[i].id);
      ghost var start := sys;
      RanOne(table.settings, sys, Tick(handler.secondsOf(jobs[i].id)));
      Sleep(handler.secondsOf(jobs[i].id));
      ghost var slept := sys;
      alive := Process(jobs[i], claims[i], handler.outcomeOf(table.rows, jobs[i].id));
      RanOn(table.settings, start, [Tick(handler.secondsOf(jobs[i].id))], slept,
        [AnswerStep(me, claims[i], outcome)], sys);
      assert AnswerSteps(me, handler, claims[i], outcome)
          == [Tick(handler.secondsOf(jobs[i].id))] + [AnswerStep(me, claims[i], outcome)];
    }

    method AnswerNext(jobs: seq<ClaimedJob>, i: nat, handler: Handler, ghost start: Sys, ghost before: Pass)
      returns (alive: bool, ghost pass: Pass)
      requires Valid() && Lawful(handler) && Distinct(before.claims)
      requires i == |before.outcomes| < |jobs| == |before.claims|
      requires forall j :: 0 <= j < |jobs| ==> before.claims[j].job == jobs[j]
      requires sys.live == Elements(before.claims[i..]) && (i > 0 ==> !before.outcomes[i - 1].Dies?)
      requires Underway(table.settings, me, handler, start, before, sys)
      modifies this`sys, this`now, table`rows
      ensures Valid() && sys.live == if alive then Elements(before.claims[i + 1..]) else {}
      ensures pass.claims == before.claims && |pass.outcomes| == i + 1 && (alive <==> !pass.outcomes[i].Dies?)
      ensures pass.ids == before.ids && pass.marks != [] && before.marks != [] && pass.marks[0] == before.marks[0]
      ensures Underway(table.settings, me, handler, start, pass, sys)
    {
      hide Underway, Answered;
      UnderwayMarks(table.settings, me, handler, start, before, sys);
      ghost var outcome;
      alive, outcome := ProcessNext(jobs, before.claims, i, handler);
      AnsweredOneMore(table.settings, me, handler, start, before, outcome, sys);
      pass := before.(outcomes := before.outcomes + [outcome], marks := before.marks + [sys]);
    }

    /** Handle the rows just claimed, one after the other, until none is left or the process dies. */
    method AnswerAll(jobs: seq<ClaimedJob>, handler: Handler, ghost start: Sys, ghost first: Pass)
      returns (ghost pass: Pass)
      requires Valid() && Lawful(handler) && |jobs| == |first.claims| && Distinct(first.claims)
      requires forall j :: 0 <= j < |jobs| ==> first.claims[j].job == jobs[j]
      requires Underway(table.settings, me, handler, start, first, sys) && first.outcomes == []
      requires sys.live == Elements(first.claims)
      modifies this`sys, this`now, table`rows
      ensures Idle() && pass.claims == first.claims && |pass.outcomes| <= |pass.claims|
      ensures pass.ids == first.ids && pass.marks != [] && first.marks != [] && pass.marks[0] == first.marks[0]
      ensures Underway(table.settings, me, handler, start, pass, sys)
      ensures |pass.outcomes| < |pass.claims| ==> pass.outcomes != [] && pass.outcomes[|pass.outcomes| - 1].Dies?
    {
      hide Underway;
      UnderwayMarks(table.settings, me, handler, start, first, sys);
      ghost var claims := first.claims;
      pass := first;
      var i := 0;
      var alive := true;
      assert claims[0..] == claims;
      while i < |jobs| && alive
        invariant 0 <= i <= |jobs| && Valid()
        invariant sys.live == if alive then Elements(claims[i..]) else {}
        invariant pass.claims == claims && |pass.outcomes| == i
        invariant pass.ids == first.ids && pass.marks != [] && first.marks != [] && pass.marks[0] == first.marks[0]
        invariant Underway(table.settings, me, handler, start, pass, sys)
        invariant alive <==> i == 0 || !pass.outcomes[i - 1].Dies?
      {
        alive, pass := AnswerNext(jobs, i, handler, start, pass);
        i := i + 1;
      }
      assert claims[|claims|..] == [];
    }

    /** Claim a batch, then process each row. The pass says which rows those were and how each was
        answered; afterwards this process holds no claim, whatever happened. */
    method RunOnce(limit: nat, handler: Handler) returns (processed: nat, ghost pass: Pass)
      requires Idle() && Lawful(handler)
      modifies this`sys, this`now, table`rows
      ensures Idle() && processed == |pass.ids|
      ensures IsPass(table.settings, me, handler, limit, old(sys), pass, sys)
      ensures Ran(table.settings, old(sys), PassSteps(me, handler, pass), sys)
    {
      ghost var claims;
      ghost var start := sys;
      var jobs;
      jobs, claims := ClaimBatch(limit);
      processed := |jobs|;
      ghost var batch := Batch(start.rows, Candidates(start.rows, {}, start.now), limit);
      UnderwayAtFirst(table.settings, me, handler, start, batch, claims, sys);
      pass := AnswerAll(jobs, handler, start, Pass(batch, claims, [], [sys]));
    }

    /** The sweep finds no live claim, because it runs between batches. */
    method Sweep()
      requires Idle()
      modifies this`sys, table`rows
      ensures Idle() && sys == Do(table.settings, old(sys), Step.Sweep)
      ensures Ran(table.settings, old(sys), [Step.Sweep], sys)
    {
      RanOne(table.settings, sys, Step.Sweep);
      Advance(Step.Sweep);
      var _, _ := table.Sweep(now);
    }

    /** One round of the loop. */
    method RunRound(limit: nat, due: bool, handler: Handler, pollSeconds: real) returns (ghost pass: Pass)
      requires Idle() && Lawful(handler) && pollSeconds >= 0.0
      modifies this`sys, this`now, table`rows
      ensures Idle()
      ensures IsRound(table.settings, me, handler, limit, due, pollSeconds, old(sys), pass, sys)
      ensures Ran(table.settings, old(sys), RoundSteps(me, handler, due, pollSeconds, pass), sys)
    {
      ghost var start := sys;
      ghost var head: seq<Step> := if due then [Step.Sweep] else [];
      if due {
        Sweep();
      }
      ghost var swept := sys;
      assert Ran(table.settings, start, head, swept);
      var processed: nat;
      processed, pass := RunOnce(limit, handler);
      ghost var passed := sys;
      RanOn(table.settings, start, head, swept, PassSteps(me, handler, pass), passed);
      ghost var tail: seq<Step> := if pass.ids == [] then [Tick(pollSeconds)] else [];
      if processed == 0 {
        RanOne(table.settings, sys, Tick(pollSeconds));
        Sleep(pollSeconds);
      }
      RanOn(table.settings, start, head + PassSteps(me, handler, pass), passed, tail, sys);
    }

    /** The loop of the process, for any number of rounds: sweep when one is due, then run a batch. Its
        steps are a run of the protocol in which no sweep meets an overdue live claim, however long the
        handlers take: the process discharges the timeout assumption by itself. */
    method RunForever(rounds: nat, limit: nat, sweepDue: nat -> bool, handler: Handler, pollSeconds: real)
      returns (ghost passes: seq<Pass>, ghost marks: seq<Sys>)
      requires Idle() && Lawful(handler) && pollSeconds >= 0.0
      modifies this`sys, this`now, table`rows
      ensures Idle() && |passes| == rounds && |marks| == rounds + 1
      ensures marks[0] == old(sys) && marks[rounds] == sys
      ensures forall r :: 0 <= r < rounds ==>
                IsRound(table.settings, me, handler, limit, sweepDue(r), pollSeconds, marks[r], passes[r], marks[r + 1])
      ensures forall p :: p in passes ==> |p.outcomes| <= |p.claims|
      ensures Ran(table.settings, old(sys), LoopSteps(me, handler, sweepDue, pollSeconds, passes), sys)
    {
      ghost var loop := Loop(table.settings, me, handler, limit, sweepDue, pollSeconds);
      ghost var start := sys;
      passes, marks := [], [sys];
      for round := 0 to rounds
        invariant Idle() && |passes| == round
        invariant Looped(loop, start, passes, marks, sys)
      {
        ghost var before := sys;
        ghost var pass := RunRound(limit, sweepDue(round), handler, pollSeconds);
        LoopedOnceMore(loop, start, passes, marks, before, pass, sys);
        passes, marks := passes + [pass], marks + [sys];
      }
    }
  }
}
