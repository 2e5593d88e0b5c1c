/**
  The per-installation token bucket. Instants are monotonic seconds; a response's reset instant is
  turned into a duration when it arrives.
 */
module RateLimit {
  import opened Wrappers
  import opened Reals

  datatype Budget = Budget(
    capacity: real, refill: real, tokens: real, updatedAt: real, resetsAt: Option<real>, blockedUntil: real)

  /** The headers of one response, after parsing, and the wall clock when it arrived. */
  datatype Response = Response(
    limit: Option<int>, reset: Option<int>, remaining: Option<int>, retryAfter: Option<real>, wall: real)

  function Max(a: real, b: real): real {
    if a >= b then a else b
  }

  function Min(a: real, b: real): real {
    if a <= b then a else b
  }

  /** At least one token fits, and tokens flow. */
  predicate Sound(b: Budget) {
    b.capacity >= 1.0 && b.refill > 0.0
  }

  predicate TurnsOver(b: Budget, now: real) {
    b.resetsAt.Some? && now >= b.resetsAt.value
  }

  function Accrual(b: Budget, now: real): real {
    Max(0.0, now - b.updatedAt) * b.refill
  }

  function Advanced(b: Budget, now: real): Budget {
    var whole := if TurnsOver(b, now) then b.(tokens := b.capacity, resetsAt := None) else b;
    whole.(tokens := Min(b.capacity, whole.tokens + Accrual(b, now)), updatedAt := now)
  }

  /** Seconds until a request may leave, of a budget already advanced to `now`. */
  function Wait(b: Budget, now: real): real
    requires b.refill > 0.0
  {
    var blocked := Max(0.0, b.blockedUntil - now);
    if b.tokens < 1.0 then Max(blocked, (1.0 - b.tokens) / b.refill) else blocked
  }

  predicate MayLeave(b: Budget, now: real)
    requires b.refill > 0.0
  {
    Wait(Advanced(b, now), now) <= 0.0
  }

  function Taken(b: Budget): Budget {
    b.(tokens := b.tokens - 1.0)
  }

  function Observed(b: Budget, r: Response, now: real, window: real): Budget
    requires window > 0.0
  {
    var advanced := Advanced(b, now);
    var sized :=
      if r.limit.Some? && r.limit.value > 0 then
        advanced.(capacity := r.limit.value as real, refill := r.limit.value as real / window)
      else advanced;
    var dated :=
      if r.reset.Some? then sized.(resetsAt := Some(now + Max(0.0, r.reset.value as real - r.wall))) else sized;
    var clamped :=
      if r.remaining.None? then dated
      else
        var lower := dated.(tokens := Min(dated.tokens, r.remaining.value as real));
        if r.remaining.value <= 0 && lower.resetsAt.Some? then
          lower.(blockedUntil := Max(lower.blockedUntil, lower.resetsAt.value))
        else lower;
    if r.retryAfter.Some? then clamped.(blockedUntil := Max(clamped.blockedUntil, now + r.retryAfter.value))
    else clamped
  }

  lemma ObservedStaysSound(b: Budget, r: Response, now: real, window: real)
    requires Sound(b) && window > 0.0
    ensures Sound(Observed(b, r, now, window))
  {
    if r.limit.Some? && r.limit.value > 0 {
      Quotient(r.limit.value as real, window, 0.0);
      PositiveFactor(r.limit.value as real / window, window, r.limit.value as real);
    }
  }

  // ---------------------------------------------------------------------------------------------
  // The bucket in its own fields
  // ---------------------------------------------------------------------------------------------

  ghost predicate IsLesser(x: real, a: real, b: real) {
    (x == a || x == b) && x <= a && x <= b
  }

  /** What time does to a bucket: at a turnover it is full again, and otherwise it has what it had and what
      flowed in meanwhile, but never more than its capacity. Time that runs backwards adds nothing. */
  ghost predicate Refilled(before: Budget, after: Budget, now: real) {
    && after.capacity == before.capacity && after.refill == before.refill
    && after.blockedUntil == before.blockedUntil && after.updatedAt == now
    && if before.resetsAt.Some? && now >= before.resetsAt.value then
         after.resetsAt == None && after.tokens == after.capacity
       else
         && after.resetsAt == before.resetsAt
         && if now >= before.updatedAt
            then IsLesser(after.tokens, before.capacity, before.tokens + (now - before.updatedAt) * before.refill)
            else IsLesser(after.tokens, before.capacity, before.tokens)
  }

  lemma AdvanceRefills(b: Budget, now: real)
    requires b.refill >= 0.0
    ensures Refilled(b, Advanced(b, now), now) && Advanced(b, now).tokens <= b.capacity
  {
    var elapsed := Max(0.0, now - b.updatedAt);
    assert Accrual(b, now) == elapsed * b.refill;
    assert now >= b.updatedAt ==> elapsed == now - b.updatedAt;
    assert now < b.updatedAt ==> elapsed == 0.0;
    ProductIsNonNegative(Max(0.0, now - b.updatedAt), b.refill, Accrual(b, now));
  }

  /** The shortest wait after which nothing blocks and a token is there. */
  ghost predicate IsShortestWait(b: Budget, now: real, wait: real) {
    && wait >= 0.0 && now + wait >= b.blockedUntil && b.tokens + wait * b.refill >= 1.0
    && (wait == 0.0 || now + wait == b.blockedUntil || b.tokens + wait * b.refill == 1.0)
  }

  lemma WaitIsShortest(b: Budget, now: real)
    requires b.refill > 0.0
    ensures IsShortestWait(b, now, Wait(b, now))
  {
    var wait := Wait(b, now);
    if b.tokens < 1.0 {
      var missing := (1.0 - b.tokens) / b.refill;
      Quotient(1.0 - b.tokens, b.refill, wait);
      assert missing * b.refill == 1.0 - b.tokens;
      assert wait >= missing;
    } else {
      ProductIsNonNegative(wait, b.refill, wait * b.refill);
    }
  }

  /** The greatest of the instants that apply. */
  ghost predicate IsLatestOf(x: real, first: real, second: Option<real>, third: Option<real>) {
    && x >= first && (second.Some? ==> x >= second.value) && (third.Some? ==> x >= third.value)
    && (x == first || Some(x) == second || Some(x) == third)
  }

  /** What the headers of a response do to a bucket brought up to date: an announced limit sets the capacity
      and the rate, an announced reset the turnover, an announced remainder lowers the tokens and never raises
      them, and a spent budget or a retry-after blocks; no block is ever shortened. */
  ghost predicate Corrected(b: Budget, after: Budget, r: Response, now: real, window: real) {
    && (if r.limit.Some? && r.limit.value > 0
        then after.capacity == r.limit.value as real && after.refill * window == r.limit.value as real
        else after.capacity == b.capacity && after.refill == b.refill)
    && (if r.reset.None? then after.resetsAt == b.resetsAt
        else if r.reset.value as real >= r.wall then after.resetsAt == Some(now + (r.reset.value as real - r.wall))
        else after.resetsAt == Some(now))
    && (if r.remaining.None? then after.tokens == b.tokens
        else IsLesser(after.tokens, b.tokens, r.remaining.value as real))
    && IsLatestOf(after.blockedUntil, b.blockedUntil,
                  if r.remaining.Some? && r.remaining.value <= 0 then after.resetsAt else None,
                  if r.retryAfter.Some? then Some(now + r.retryAfter.value) else None)
    && after.updatedAt == b.updatedAt
  }

  lemma ObservedCorrects(b: Budget, r: Response, now: real, window: real)
    requires Sound(b) && window > 0.0
    ensures Corrected(Advanced(b, now), Observed(b, r, now, window), r, now, window)
  {
    hide Advanced;
    if r.limit.Some? && r.limit.value > 0 {
      Quotient(r.limit.value as real, window, 0.0);
      assert r.limit.value as real / window * window == r.limit.value as real;
    }
  }

  // ---------------------------------------------------------------------------------------------
  // The wait
  // ---------------------------------------------------------------------------------------------

  lemma LeavesIff(b: Budget, now: real)
    requires Sound(b)
    ensures MayLeave(b, now) <==> Advanced(b, now).tokens >= 1.0 && b.blockedUntil <= now
  {
    var a := Advanced(b, now);
    if a.tokens < 1.0 {
      Quotient(1.0 - a.tokens, a.refill, 0.0);
      PositiveFactor((1.0 - a.tokens) / a.refill, a.refill, 1.0 - a.tokens);
    }
  }

  lemma TokensAtLeastOne(b: Budget, t: real)
    requires Sound(b) && b.updatedAt <= t
    ensures Advanced(b, t).tokens >= 1.0
       <==> TurnsOver(b, t) || b.tokens >= 1.0 || t >= b.updatedAt + (1.0 - b.tokens) / b.refill
  {
    var elapsed := t - b.updatedAt;
    Quotient(1.0 - b.tokens, b.refill, elapsed);
    var flow := Accrual(b, t);
    ProductIsNonNegative(elapsed, b.refill, flow);
  }

  /** The wait is exact: with no response in between, a request may leave at a later instant exactly when
      the wait has passed, or the window has turned over and nothing blocks. */
  lemma WaitIsExact(b: Budget, now: real, t: real)
    requires Sound(b) && now <= t
    ensures var a := Advanced(b, now);
            MayLeave(a, t) <==> t >= now + Wait(a, now) || (TurnsOver(a, t) && t >= a.blockedUntil)
  {
    var a := Advanced(b, now);
    LeavesIff(a, t);
    TokensAtLeastOne(a, t);
    if a.tokens < 1.0 {
      Quotient(1.0 - a.tokens, a.refill, 0.0);
      PositiveFactor((1.0 - a.tokens) / a.refill, a.refill, 1.0 - a.tokens);
    }
  }

  // ---------------------------------------------------------------------------------------------
  // Runs
  // ---------------------------------------------------------------------------------------------

  /** What happens to one bucket: a caller looks and takes a token if one may leave, or a response is
      observed. */
  datatype Event = Ask(now: real) | Answer(now: real, response: Response)

  predicate Issues(b: Budget, e: Event)
    requires b.refill > 0.0
  {
    e.Ask? && MayLeave(b, e.now)
  }

  function After(b: Budget, e: Event, window: real): Budget
    requires window > 0.0 && b.refill > 0.0
  {
    match e
    case Ask(now) => if MayLeave(b, now) then Taken(Advanced(b, now)) else Advanced(b, now)
    case Answer(now, response) => Observed(b, response, now, window)
  }

  lemma AfterStaysSound(b: Budget, e: Event, window: real)
    requires window > 0.0 && Sound(b)
    ensures Sound(After(b, e, window))
  {
    if e.Answer? {
      ObservedStaysSound(b, e.response, e.now, window);
    }
  }

  /** Totals over a run: requests issued, refill accrued, and capacity restored at window turnovers. */
  datatype Account = Account(budget: Budget, issued: nat, accrued: real, restored: real)

  function Posted(a: Account, e: Event, window: real): (later: Account)
    requires window > 0.0 && Sound(a.budget)
    ensures Sound(later.budget)
  {
    AfterStaysSound(a.budget, e, window);
    Account(After(a.budget, e, window),
            a.issued + (if Issues(a.budget, e) then 1 else 0),
            a.accrued + Accrual(a.budget, e.now),
            a.restored + (if TurnsOver(a.budget, e.now) then a.budget.capacity else 0.0))
  }

  function Total(b: Budget, run: seq<Event>, window: real): (a: Account)
    requires window > 0.0 && Sound(b)
    ensures Sound(a.budget)
  {
    if run == [] then Account(b, 0, 0.0, 0.0)
    else
      Posted(Total(b, run[..|run| - 1], window), run[|run| - 1], window)
  }

  predicate RemainingIsACount(e: Event) {
    e.Answer? && e.response.remaining.Some? ==> e.response.remaining.value >= 0
  }

  lemma AdvanceAccounts(b: Budget, now: real)
    requires Sound(b) && b.tokens >= 0.0
    ensures 0.0 <= Advanced(b, now).tokens
    ensures Advanced(b, now).tokens <= b.tokens + Accrual(b, now) + (if TurnsOver(b, now) then b.capacity else 0.0)
    ensures Accrual(b, now) >= 0.0
  {
    ProductIsNonNegative(Max(0.0, now - b.updatedAt), b.refill, Accrual(b, now));
  }

  /** The bucket never goes into debt, and what has been issued and what is left never exceed what it
      started with, what flowed in, and one capacity per window turnover. */
  lemma {:induction false} RequestsAreBudgeted(b: Budget, run: seq<Event>, window: real)
    requires window > 0.0 && Sound(b) && b.tokens >= 0.0
    requires forall e :: e in run ==> RemainingIsACount(e)
    ensures var a := Total(b, run, window);
            a.budget.tokens >= 0.0 && a.issued as real + a.budget.tokens <= b.tokens + a.accrued + a.restored
  {
    if run != [] {
      var before, e := run[..|run| - 1], run[|run| - 1];
      RequestsAreBudgeted(b, before, window);
      var a := Total(b, before, window);
      AdvanceAccounts(a.budget, e.now);
      if e.Ask? {
        LeavesIff(a.budget, e.now);
      }
      assert e in run && RemainingIsACount(e);
    }
  }

  lemma BlockNeverFalls(b: Budget, e: Event, window: real)
    requires window > 0.0 && Sound(b)
    ensures After(b, e, window).blockedUntil >= b.blockedUntil
  {
  }

  lemma {:induction false} BlocksAreKept(b: Budget, run: seq<Event>, window: real, i: nat)
    requires window > 0.0 && Sound(b) && i <= |run|
    ensures Total(b, run, window).budget.blockedUntil >= Total(b, run[..i], window).budget.blockedUntil
  {
    if i < |run| {
      var before := run[..|run| - 1];
      assert before[..i] == run[..i];
      BlocksAreKept(b, before, window, i);
      BlockNeverFalls(Total(b, before, window).budget, run[|run| - 1], window);
    } else {
      assert run[..i] == run;
    }
  }

  /** No request leaves before the end of any block in force at any earlier time, whatever was said since. */
  lemma NothingLeavesWhileBlocked(b: Budget, run: seq<Event>, window: real, i: nat, j: nat)
    requires window > 0.0 && Sound(b) && i <= j < |run|
    requires Issues(Total(b, run[..j], window).budget, run[j])
    ensures run[j].now >= Total(b, run[..i], window).budget.blockedUntil
  {
    assert run[..j][..i] == run[..i];
    BlocksAreKept(b, run[..j], window, i);
    LeavesIff(Total(b, run[..j], window).budget, run[j].now);
  }

  /** When the primary window turns over, as a response announces it, or else as an earlier one did. */
  function Turnover(b: Budget, r: Response, now: real): Option<real> {
    if r.reset.Some? then Some(now + Max(0.0, r.reset.value as real - r.wall)) else Advanced(b, now).resetsAt
  }

  /** The instant before which a response forbids every request, given the bucket it finds. */
  function Embargo(b: Budget, r: Response, now: real): Option<real> {
    var primary := if r.remaining.Some? && r.remaining.value <= 0 then Turnover(b, r, now) else None;
    if r.retryAfter.None? then primary
    else if primary.None? then Some(now + r.retryAfter.value)
    else Some(Max(primary.value, now + r.retryAfter.value))
  }

  lemma EmbargoBlocks(b: Budget, r: Response, now: real, window: real)
    requires window > 0.0 && Embargo(b, r, now).Some?
    ensures Observed(b, r, now, window).blockedUntil >= Embargo(b, r, now).value
  {
  }

  /** No request leaves before the instant that any earlier response set, by retry-after or by an exhausted
      primary budget, whose turnover that response or an earlier one had announced. */
  lemma NothingLeavesUnderEmbargo(b: Budget, run: seq<Event>, window: real, i: nat, j: nat)
    requires window > 0.0 && Sound(b) && i < j < |run| && run[i].Answer?
    requires Embargo(Total(b, run[..i], window).budget, run[i].response, run[i].now).Some?
    requires Issues(Total(b, run[..j], window).budget, run[j])
    ensures run[j].now >= Embargo(Total(b, run[..i], window).budget, run[i].response, run[i].now).value
  {
    NothingLeavesWhileBlocked(b, run, window, i + 1, j);
    assert run[..i + 1][..i] == run[..i];
    EmbargoBlocks(Total(b, run[..i], window).budget, run[i].response, run[i].now, window);
  }

  predicate Steady(run: seq<Event>) {
    forall e :: e in run ==> e.Answer? ==> e.response.limit.None? || e.response.limit.value <= 0
  }

  ghost predicate InTimeOrder(run: seq<Event>, start: real) {
    && (forall i, j :: 0 <= i < j < |run| ==> run[i].now <= run[j].now)
    && forall e :: e in run ==> e.now >= start
  }

  function LastTime(run: seq<Event>, start: real): real {
    if run == [] then start else run[|run| - 1].now
  }

  function Flow(seconds: real, rate: real): real {
    seconds * rate
  }

  /** Everything that flowed in since `start` flowed at one rate. */
  ghost predicate Even(a: Account, start: real, at: real, refill: real) {
    a.budget.refill == refill && a.budget.updatedAt == at && a.accrued == Flow(at - start, refill)
  }

  lemma OneEventMore(a: Account, e: Event, window: real, start: real, at: real, refill: real)
    requires window > 0.0 && Sound(a.budget) && at <= e.now && Even(a, start, at, refill)
    requires e.Answer? ==> e.response.limit.None? || e.response.limit.value <= 0
    ensures Even(Posted(a, e, window), start, e.now, refill)
  {
    var passed := e.now - a.budget.updatedAt;
    assert Accrual(a.budget, e.now) == passed * refill;
    assert passed * refill + (a.budget.updatedAt - start) * refill == (e.now - start) * refill;
  }

  lemma {:induction false} AccrualTelescopes(b: Budget, run: seq<Event>, window: real)
    requires window > 0.0 && Sound(b) && Steady(run) && InTimeOrder(run, b.updatedAt)
    ensures Even(Total(b, run, window), b.updatedAt, LastTime(run, b.updatedAt), b.refill)
  {
    if run != [] {
      var before, e := run[..|run| - 1], run[|run| - 1];
      BeforeLast(run, b.updatedAt);
      AccrualTelescopes(b, before, window);
      OneEventMore(Total(b, before, window), e, window, b.updatedAt, LastTime(before, b.updatedAt), b.refill);
    }
  }

  lemma BeforeLast(run: seq<Event>, start: real)
    requires run != [] && Steady(run) && InTimeOrder(run, start)
    ensures var before, e := run[..|run| - 1], run[|run| - 1];
            && Steady(before) && InTimeOrder(before, start) && LastTime(before, start) <= e.now
            && (e.Answer? ==> e.response.limit.None? || e.response.limit.value <= 0)
  {
    var before, e := run[..|run| - 1], run[|run| - 1];
    assert e in run;
    assert forall x :: x in before ==> x in run;
  }

  /** While the announced limit stands, the requests of any stretch are at most the tokens it began with,
      the refill rate times its length, and what turnovers restored. */
  lemma SteadyPace(b: Budget, run: seq<Event>, window: real)
    requires window > 0.0 && Sound(b) && b.tokens >= 0.0
    requires Steady(run) && InTimeOrder(run, b.updatedAt) && forall e :: e in run ==> RemainingIsACount(e)
    ensures var a := Total(b, run, window);
            a.issued as real <= b.tokens + Flow(LastTime(run, b.updatedAt) - b.updatedAt, b.refill) + a.restored
  {
    RequestsAreBudgeted(b, run, window);
    AccrualTelescopes(b, run, window);
  }

  /** Whatever happened, no look leaves more tokens than fit. */
  lemma EveryLookIsCapped(b: Budget, run: seq<Event>, window: real, i: nat)
    requires window > 0.0 && Sound(b) && i < |run| && run[i].Ask?
    ensures var after := Total(b, run[..i + 1], window).budget; after.tokens <= after.capacity
  {
    assert run[..i + 1][..i] == run[..i];
  }

  /** A run is its first event and what follows it. */
  lemma {:induction false} FirstThenRest(b: Budget, run: seq<Event>, window: real)
    requires window > 0.0 && Sound(b) && run != []
    ensures var first, all := Total(b, run[..1], window), Total(b, run, window);
            var rest := Total(first.budget, run[1..], window);
            all.budget == rest.budget && all.issued == first.issued + rest.issued
  {
    if |run| == 1 {
      assert run[..1] == run;
    } else {
      var before := run[..|run| - 1];
      FirstThenRest(b, before, window);
      assert before[..1] == run[..1] && run[1..][..|run| - 2] == before[1..];
    }
  }

  /** No response announces a reset. */
  ghost predicate NoReset(run: seq<Event>) {
    forall e :: e in run && e.Answer? ==> e.response.reset.None?
  }

  lemma {:induction false} NothingIsRestored(b: Budget, run: seq<Event>, window: real)
    requires window > 0.0 && Sound(b) && b.resetsAt.None? && NoReset(run)
    ensures Total(b, run, window).restored == 0.0 && Total(b, run, window).budget.resetsAt.None?
  {
    if run != [] {
      var before := run[..|run| - 1];
      assert run == before + [run[|run| - 1]];
      NothingIsRestored(b, before, window);
    }
  }

  /** What one event issues and leaves together fits the bucket. */
  lemma OneEventFits(b: Budget, e: Event, window: real)
    requires window > 0.0 && Sound(b) && b.tokens >= 0.0 && RemainingIsACount(e)
    requires e.Answer? ==> e.response.limit.None? || e.response.limit.value <= 0
    ensures var after := After(b, e, window);
            && Sound(after) && after.tokens >= 0.0 && after.updatedAt == e.now
            && after.capacity == b.capacity && after.refill == b.refill
            && after.tokens + (if Issues(b, e) then 1.0 else 0.0) <= b.capacity
  {
    AdvanceAccounts(b, e.now);
    LeavesIff(b, e.now);
    AfterStaysSound(b, e, window);
  }

  /** A stretch with one limit and no turnover, and only counts announced. */
  ghost predicate Plain(run: seq<Event>) {
    Steady(run) && NoReset(run) && forall e :: e in run ==> RemainingIsACount(e)
  }

  lemma RestIsPlain(run: seq<Event>)
    requires run != [] && Plain(run) && InTimeOrder(run, run[0].now)
    ensures Plain(run[..1]) && Plain(run[1..]) && InTimeOrder(run[1..], run[0].now)
    ensures LastTime(run[1..], run[0].now) == run[|run| - 1].now
  {
    var rest := run[1..];
    assert forall e :: e in rest ==> e in run;
    assert forall i, j :: 0 <= i < j < |rest| ==> rest[i].now == run[i + 1].now && rest[j].now == run[j + 1].now;
  }

  lemma FirstEventFits(b: Budget, e: Event, window: real)
    requires window > 0.0 && Sound(b) && b.tokens >= 0.0 && Plain([e])
    ensures var a := Total(b, [e], window);
            && a.budget.tokens >= 0.0 && a.budget.updatedAt == e.now && a.budget.refill == b.refill
            && a.issued as real + a.budget.tokens <= b.capacity
  {
    hide After, Advanced, Observed, MayLeave;
    assert e in [e] && [e][..0] == [];
    OneEventFits(b, e, window);
  }

  /** However long the bucket was idle before, a stretch with one limit and no turnover issues at most one
      capacity and what flows in during the stretch. */
  lemma BurstIsCapped(b: Budget, run: seq<Event>, window: real)
    requires window > 0.0 && Sound(b) && b.tokens >= 0.0 && b.resetsAt.None? && run != []
    requires Plain(run) && InTimeOrder(run, run[0].now)
    ensures Total(b, run, window).issued as real <=
            b.capacity + Flow(run[|run| - 1].now - run[0].now, b.refill)
  {
    hide Total, Steady, NoReset, InTimeOrder, RemainingIsACount, LastTime, Flow;
    RestIsPlain(run);
    assert run[..1] == [run[0]];
    FirstEventFits(b, run[0], window);
    NothingIsRestored(b, run[..1], window);
    var start := Total(b, run[..1], window);
    FirstThenRest(b, run, window);
    SteadyPace(start.budget, run[1..], window);
    NothingIsRestored(start.budget, run[1..], window);
  }

  lemma ObservedAnnounces(b: Budget, r: Response, now: real, window: real)
    requires window > 0.0 && Sound(b) && b.tokens >= 0.0
    requires r.limit.Some? && r.limit.value > 0 && r.remaining.Some? && r.remaining.value >= 0
    ensures var after := Observed(b, r, now, window);
            && Sound(after) && 0.0 <= after.tokens <= r.remaining.value as real
            && after.refill == r.limit.value as real / window && after.updatedAt == now
  {
    ObservedStaysSound(b, r, now, window);
    AdvanceAccounts(b, now);
  }

  /** A response that announces a limit and what remains of it bounds everything that follows it, while
      that limit stands: what remains, the announced rate times the elapsed time, and turnovers. */
  lemma ResponsePacesWhatFollows(b: Budget, r: Response, now: real, after: Budget, run: seq<Event>, window: real)
    requires window > 0.0 && Sound(b) && b.tokens >= 0.0 && after == Observed(b, r, now, window) && Sound(after)
    requires r.limit.Some? && r.limit.value > 0 && r.remaining.Some? && r.remaining.value >= 0
    requires Steady(run) && InTimeOrder(run, now) && forall e :: e in run ==> RemainingIsACount(e)
    ensures var a, rate := Total(after, run, window), r.limit.value as real / window;
            a.issued as real <= r.remaining.value as real + Flow(LastTime(run, now) - now, rate) + a.restored
  {
    ObservedAnnounces(b, r, now, window);
    SteadyPace(after, run, window);
  }

  // ---------------------------------------------------------------------------------------------
  // The limiter
  // ---------------------------------------------------------------------------------------------

  /** Time only moves forward, and a sleep lasts at least as long as asked. */
  class Clock {
    var now: real

    constructor (start: real)
      ensures now == start
    {
      now := start;
    }

    method Sleep(seconds: real)
      modifies this
      ensures now >= old(now) && now >= old(now) + seconds
    {
      var late: real := *;
      now := now + Max(0.0, seconds) + Max(0.0, late);
    }
  }

  class Bucket {
    var budget: Budget

    constructor (limit: real, window: real, now: real)
      requires window > 0.0
      ensures budget == Budget(limit, limit / window, limit, now, None, 0.0)
    {
      budget := Budget(limit, limit / window, limit, now, None, 0.0);
    }

    method Advance(now: real)
      modifies this
      ensures budget == Advanced(old(budget), now) && budget.tokens <= budget.capacity
      ensures old(budget).refill >= 0.0 ==> Refilled(old(budget), budget, now)
    {
      if budget.refill >= 0.0 {
        AdvanceRefills(budget, now);
      }
      if budget.resetsAt.Some? && now >= budget.resetsAt.value {
        budget := budget.(tokens := budget.capacity);
        budget := budget.(resetsAt := None);
      }
      var elapsed := Max(0.0, now - budget.updatedAt);
      budget := budget.(tokens := Min(budget.capacity, budget.tokens + elapsed * budget.refill));
      budget := budget.(updatedAt := now);
    }

    method WaitForToken(now: real) returns (wait: real)
      requires Sound(budget)
      modifies this
      ensures budget == Advanced(old(budget), now) && Sound(budget) && wait == Wait(budget, now)
      ensures wait <= 0.0 <==> budget.tokens >= 1.0 && budget.blockedUntil <= now
      ensures wait <= 0.0 <==> MayLeave(old(budget), now)
      ensures Refilled(old(budget), budget, now) && IsShortestWait(budget, now, wait)
    {
      Advance(now);
      WaitIsShortest(budget, now);
      LeavesIff(old(budget), now);
      wait := Max(0.0, budget.blockedUntil - now);
      if budget.tokens < 1.0 {
        wait := Max(wait, (1.0 - budget.tokens) / budget.refill);
      }
    }

    method Take()
      modifies this
      ensures budget == Taken(old(budget))
      ensures budget.tokens == old(budget.tokens) - 1.0 && budget.blockedUntil == old(budget.blockedUntil)
    {
      budget := budget.(tokens := budget.tokens - 1.0);
    }

    method Observe(r: Response, now: real, window: real)
      requires Sound(budget) && window > 0.0
      modifies this
      ensures budget == Observed(old(budget), r, now, window) && Sound(budget)
      ensures exists up: Budget :: Refilled(old(budget), up, now) && Corrected(up, budget, r, now, window)
    {
      ObservedStaysSound(budget, r, now, window);
      AdvanceRefills(budget, now);
      ObservedCorrects(budget, r, now, window);
      Advance(now);
      if r.limit.Some? && r.limit.value > 0 {
        budget := budget.(capacity := r.limit.value as real, refill := r.limit.value as real / window);
      }
      if r.reset.Some? {
        budget := budget.(resetsAt := Some(now + Max(0.0, r.reset.value as real - r.wall)));
      }
      if r.remaining.Some? {
        budget := budget.(tokens := Min(budget.tokens, r.remaining.value as real));
        if r.remaining.value <= 0 && budget.resetsAt.Some? {
          budget := budget.(blockedUntil := Max(budget.blockedUntil, budget.resetsAt.value));
        }
      }
      if r.retryAfter.Some? {
        budget := budget.(blockedUntil := Max(budget.blockedUntil, now + r.retryAfter.value));
      }
    }
  }

  /** Everything the limit allows is there, a window brings as much again, and nothing blocks. */
  ghost predicate IsFull(b: Budget, limit: real, window: real, now: real) {
    && b.capacity == limit && b.tokens == limit && b.refill * window == limit
    && b.updatedAt == now && b.resetsAt == None && b.blockedUntil == 0.0
  }

  /** The bucket brought up to date had a token and no block, and has one token less. */
  ghost predicate Spends(before: Budget, after: Budget, now: real) {
    && Refilled(before, after.(tokens := after.tokens + 1.0), now)
    && after.tokens >= 0.0 && after.blockedUntil <= now
  }

  lemma TakenSpends(b: Budget, now: real)
    requires Sound(b) && MayLeave(b, now)
    ensures Spends(b, Taken(Advanced(b, now)), now)
  {
    LeavesIff(b, now);
    AdvanceRefills(b, now);
    assert Taken(Advanced(b, now)).(tokens := Taken(Advanced(b, now)).tokens + 1.0) == Advanced(b, now);
  }

  /** A response came in during each of the first `n` sleeps. */
  ghost predicate Interrupted(during: seq<seq<Response>>, n: int) {
    0 <= n <= |during| && forall k :: 0 <= k < n ==> during[k] != []
  }

  /** The events took a bucket from one budget to the other, in time order up to `now`, and issued so many
      requests. */
  ghost predicate Traced(
    start: Budget, events: seq<Event>, b: Budget, issued: nat, window: real, since: real, now: real)
  {
    && window > 0.0 && Sound(start) && InTimeOrder(events, since) && since <= LastTime(events, since) <= now
    && Total(start, events, window).budget == b && Total(start, events, window).issued == issued
  }

  lemma TracedAtFirst(b: Budget, window: real, now: real)
    requires window > 0.0 && Sound(b)
    ensures Traced(b, [], b, 0, window, now, now)
  {
  }

  lemma TracedOneMore(
    start: Budget, events: seq<Event>, b: Budget, issued: nat, window: real, since: real, now: real, e: Event)
    requires Traced(start, events, b, issued, window, since, now) && e.now >= now && Sound(b)
    ensures Traced(start, events + [e], After(b, e, window), issued + (if Issues(b, e) then 1 else 0), window,
                   since, e.now)
  {
    hide Issues, After;
    InOrderOneMore(events, e, since);
    TotalOneMore(start, events, e, window);
  }

  lemma TotalOneMore(start: Budget, events: seq<Event>, e: Event, window: real)
    requires window > 0.0 && Sound(start)
    ensures Total(start, events + [e], window) == Posted(Total(start, events, window), e, window)
  {
    hide Posted;
    assert (events + [e])[..|events|] == events;
  }

  lemma InOrderOneMore(events: seq<Event>, e: Event, since: real)
    requires InTimeOrder(events, since) && since <= LastTime(events, since) <= e.now
    ensures InTimeOrder(events + [e], since) && LastTime(events + [e], since) == e.now
  {
    var more := events + [e];
    forall i, j | 0 <= i < j < |more|
      ensures more[i].now <= more[j].now
    {
      assert j == |events| ==> events[i].now <= events[|events| - 1].now;
    }
  }

  lemma TracedLater(
    start: Budget, events: seq<Event>, b: Budget, issued: nat, window: real, since: real, now: real, later: real)
    requires Traced(start, events, b, issued, window, since, now) && now <= later
    ensures Traced(start, events, b, issued, window, since, later)
  {
    hide InTimeOrder, Total, LastTime, Sound;
  }

  lemma TracedAnswer(start: Budget, events: seq<Event>, b: Budget, window: real, since: real, now: real, r: Response)
    requires Traced(start, events, b, 0, window, since, now) && Sound(b) && window > 0.0
    ensures Traced(start, events + [Answer(now, r)], Observed(b, r, now, window), 0, window, since, now)
  {
    hide Traced, Observed;
    TracedOneMore(start, events, b, 0, window, since, now, Answer(now, r));
  }

  lemma TracedLook(start: Budget, events: seq<Event>, b: Budget, window: real, since: real, now: real)
    requires Traced(start, events, b, 0, window, since, now) && Sound(b)
    ensures MayLeave(b, now) ==> Traced(start, events + [Ask(now)], Taken(Advanced(b, now)), 1, window, since, now)
    ensures !MayLeave(b, now) ==> Traced(start, events + [Ask(now)], Advanced(b, now), 0, window, since, now)
  {
    hide Traced, Taken, Advanced, MayLeave;
    TracedOneMore(start, events, b, 0, window, since, now, Ask(now));
  }

  /** The events are these responses, one after the other. */
  ghost predicate Heard(events: seq<Event>, responses: seq<Response>) {
    |events| == |responses| && forall i :: 0 <= i < |events| ==> events[i].Answer? && events[i].response == responses[i]
  }

  datatype Outcome = Granted | Refused(wait: real)

  class RateLimiter {
    const clock: Clock
    const maxWait: real
    const defaultLimit: int
    const window: real
    var buckets: map<int, Bucket>

    ghost predicate Valid()
      reads this, buckets.Values
    {
      && window > 0.0 && defaultLimit >= 1
      && (forall id :: id in buckets ==> Sound(buckets[id].budget))
      && forall i, j :: i in buckets && j in buckets && i != j ==> buckets[i] != buckets[j]
    }

    /** What an installation starts with before any response has said otherwise. */
    function FullBudget(now: real): Budget
      requires window > 0.0
    {
      Budget(defaultLimit as real, defaultLimit as real / window, defaultLimit as real, now, None, 0.0)
    }

    constructor (clock: Clock, maxWait: real, defaultLimit: int, window: real)
      requires window > 0.0 && defaultLimit >= 1
      ensures Valid() && buckets == map[] && this.clock == clock && this.maxWait == maxWait
    {
      this.clock := clock;
      this.maxWait := maxWait;
      this.defaultLimit := defaultLimit;
      this.window := window;
      buckets := map[];
    }

    /** The bucket of an installation, made on first use; no other bucket moves. */
    method BucketOf(id: int) returns (bucket: Bucket)
      requires Valid()
      modifies this
      ensures Valid() && id in buckets && buckets[id] == bucket && buckets == old(buckets)[id := bucket]
      ensures id in old(buckets) ==> bucket == old(buckets)[id]
      ensures id !in old(buckets) ==>
        && fresh(bucket)
        && bucket.budget == FullBudget(clock.now) && IsFull(bucket.budget, defaultLimit as real, window, clock.now)
    {
      if id in buckets {
        bucket := buckets[id];
      } else {
        bucket := new Bucket(defaultLimit as real, window, clock.now);
        Quotient(defaultLimit as real, window, 0.0);
        PositiveFactor(defaultLimit as real / window, window, defaultLimit as real);
        assert defaultLimit as real / window * window == defaultLimit as real;
        buckets := buckets[id := bucket];
      }
    }

    /** Sleeps while responses to the same installation come in and are observed. */
    method SleepObserving(
      bucket: Bucket, seconds: real, responses: seq<Response>, ghost start: Budget, ghost events: seq<Event>,
      ghost since: real) returns (ghost seen: seq<Event>)
      requires window > 0.0 && Sound(bucket.budget) && Traced(start, events, bucket.budget, 0, window, since, clock.now)
      modifies bucket, clock
      ensures Sound(bucket.budget) && Traced(start, seen, bucket.budget, 0, window, since, clock.now)
      ensures clock.now >= old(clock.now) && clock.now >= old(clock.now) + seconds
      ensures events <= seen && Heard(seen[|events|..], responses)
      ensures responses == [] ==> bucket.budget == old(bucket.budget)
    {
      hide Traced, Observed;
      var asleep := clock.now;
      seen := events;
      for i := 0 to |responses|
        invariant Sound(bucket.budget) && clock.now >= asleep
        invariant Traced(start, seen, bucket.budget, 0, window, since, clock.now)
        invariant events <= seen && Heard(seen[|events|..], responses[..i])
        invariant i == 0 ==> bucket.budget == old(bucket.budget)
      {
        ghost var before := clock.now;
        clock.Sleep(0.0);
        TracedLater(start, seen, bucket.budget, 0, window, since, before, clock.now);
        TracedAnswer(start, seen, bucket.budget, window, since, clock.now, responses[i]);
        bucket.Observe(responses[i], clock.now, window);
        seen := seen + [Answer(clock.now, responses[i])];
      }
      assert responses[..|responses|] == responses;
      ghost var awake := clock.now;
      clock.Sleep(asleep + seconds - clock.now);
      TracedLater(start, seen, bucket.budget, 0, window, since, awake, clock.now);
    }

    /** One look under the lock: a token is taken when a request may leave at once. */
    method Look(bucket: Bucket, ghost start: Budget, ghost events: seq<Event>, ghost since: real)
      returns (wait: real, ghost seen: seq<Event>)
      requires window > 0.0 && Sound(bucket.budget) && Traced(start, events, bucket.budget, 0, window, since, clock.now)
      modifies bucket
      ensures Sound(bucket.budget) && seen == events + [Ask(clock.now)]
      ensures wait <= 0.0 <==> MayLeave(old(bucket.budget), clock.now)
      ensures wait <= 0.0 ==>
        && bucket.budget == Taken(Advanced(old(bucket.budget), clock.now))
        && clock.now >= bucket.budget.blockedUntil && bucket.budget.tokens >= 0.0
      ensures wait > 0.0 ==>
        bucket.budget == Advanced(old(bucket.budget), clock.now) && wait == Wait(bucket.budget, clock.now)
      ensures wait <= 0.0 ==> Spends(old(bucket.budget), bucket.budget, clock.now)
      ensures wait > 0.0 ==>
        Refilled(old(bucket.budget), bucket.budget, clock.now) && IsShortestWait(bucket.budget, clock.now, wait)
      ensures Traced(start, seen, bucket.budget, if wait <= 0.0 then 1 else 0, window, since, clock.now)
    {
      hide Traced, Advanced, Wait, MayLeave;
      TracedLook(start, events, bucket.budget, window, since, clock.now);
      seen := events + [Ask(clock.now)];
      hide Refilled, IsShortestWait, Spends;
      wait := bucket.WaitForToken(clock.now);
      if wait <= 0.0 {
        TakenSpends(old(bucket.budget), clock.now);
        bucket.Take();
      }
    }

    /** Sleeps out the wait a look has named. With no response in between, the next look succeeds. */
    method SleepOut(
      bucket: Bucket, wait: real, responses: seq<Response>, ghost last: Budget, ghost start: Budget,
      ghost events: seq<Event>, ghost since: real) returns (ghost seen: seq<Event>)
      requires window > 0.0 && Sound(bucket.budget) && Traced(start, events, bucket.budget, 0, window, since, clock.now)
      requires Sound(last) && wait > 0.0
      requires bucket.budget == Advanced(last, clock.now) && wait == Wait(bucket.budget, clock.now)
      modifies bucket, clock
      ensures Sound(bucket.budget) && Traced(start, seen, bucket.budget, 0, window, since, clock.now)
      ensures clock.now >= old(clock.now) && |events| <= |seen|
      ensures responses == [] ==> MayLeave(bucket.budget, clock.now)
    {
      hide Traced, Advanced, Wait, MayLeave, TurnsOver, Sound, Heard;
      ghost var before := clock.now;
      seen := SleepObserving(bucket, wait, responses, start, events, since);
      WaitIsExact(last, before, clock.now);
    }

    /** The loop under the lock. */
    method AcquireFrom(bucket: Bucket, during: seq<seq<Response>>)
      returns (outcome: Outcome, sleeps: nat, ghost last: Budget, ghost events: seq<Event>)
      requires window > 0.0 && Sound(bucket.budget)
      modifies bucket, clock
      ensures Sound(bucket.budget) && Sound(last)
      ensures outcome.Granted? ==>
        MayLeave(last, clock.now) && bucket.budget == Taken(Advanced(last, clock.now)) &&
        clock.now >= bucket.budget.blockedUntil && bucket.budget.tokens >= 0.0 &&
        Spends(last, bucket.budget, clock.now)
      ensures outcome.Refused? ==>
        && bucket.budget == Advanced(last, clock.now)
        && outcome.wait == Wait(bucket.budget, clock.now) && outcome.wait > maxWait
        && Refilled(last, bucket.budget, clock.now) && IsShortestWait(bucket.budget, clock.now, outcome.wait)
      ensures sleeps > 0 ==> Interrupted(during, sleeps - 1)
      ensures sleeps == 0 ==> last == old(bucket.budget)
      ensures Traced(old(bucket.budget), events, bucket.budget, if outcome.Granted? then 1 else 0, window,
                     old(clock.now), clock.now)
      ensures |events| > 0 && events[|events| - 1] == Ask(clock.now)
    {
      hide Traced, Advanced, Wait, MayLeave, Taken, Refilled, IsShortestWait, Spends;
      sleeps := 0;
      ghost var ready := false;
      ghost var start, since := bucket.budget, clock.now;
      last, events := bucket.budget, [];
      TracedAtFirst(start, window, since);
      while true
        invariant Sound(bucket.budget) && last == bucket.budget
        invariant ready ==> MayLeave(bucket.budget, clock.now)
        invariant Interrupted(during, if ready then sleeps - 1 else sleeps)
        invariant sleeps == 0 ==> last == start
        invariant Traced(start, events, last, 0, window, since, clock.now)
        decreases !ready, if sleeps < |during| then |during| - sleeps else 0
      {
        var wait: real;
        wait, events := Look(bucket, start, events, since);
        if wait <= 0.0 {
          return Granted, sleeps, last, events;
        }
        if wait > maxWait {
          return Refused(wait), sleeps, last, events;
        }
        var responses := if sleeps < |during| then during[sleeps] else [];
        events := SleepOut(bucket, wait, responses, last, start, events, since);
        ready := responses == [];
        sleeps, last := sleeps + 1, bucket.budget;
      }
    }

    /** Blocks until one request may leave, or refuses a wait that is too long. `during` lists the responses
        observed in each sleep. A grant spends exactly one token, after every block has passed; a refusal
        spends none. Every sleep but the last was cut across by a response, so with none there is at most
        one sleep. The events are what happened to the bucket: looks, of which only a granted one issues a
        request, and the responses. */
    method Acquire(id: int, during: seq<seq<Response>>)
      returns (outcome: Outcome, sleeps: nat, ghost last: Budget, ghost events: seq<Event>)
      requires Valid()
      modifies this, clock, if id in buckets then {buckets[id]} else {}
      ensures Valid() && id in buckets && buckets == old(buckets)[id := buckets[id]]
      ensures id in old(buckets) ==> buckets[id] == old(buckets)[id]
      ensures Sound(last)
      ensures outcome.Granted? ==>
        MayLeave(last, clock.now) && buckets[id].budget == Taken(Advanced(last, clock.now)) &&
        clock.now >= buckets[id].budget.blockedUntil && buckets[id].budget.tokens >= 0.0 &&
        Spends(last, buckets[id].budget, clock.now)
      ensures outcome.Refused? ==>
        && buckets[id].budget == Advanced(last, clock.now)
        && outcome.wait == Wait(buckets[id].budget, clock.now) && outcome.wait > maxWait
        && Refilled(last, buckets[id].budget, clock.now) && IsShortestWait(buckets[id].budget, clock.now, outcome.wait)
      ensures sleeps > 0 ==> Interrupted(during, sleeps - 1)
      ensures sleeps == 0 && id in old(buckets) ==> last == old(buckets[id].budget)
      ensures var start := if id in old(buckets) then old(buckets[id].budget) else FullBudget(old(clock.now));
              Traced(start, events, buckets[id].budget, if outcome.Granted? then 1 else 0, window,
                     old(clock.now), clock.now)
      ensures |events| > 0 && events[|events| - 1] == Ask(clock.now)
    {
      hide Traced, Advanced, Wait, MayLeave, Taken, Interrupted, Refilled, IsShortestWait, Spends;
      var bucket := BucketOf(id);
      outcome, sleeps, last, events := AcquireFrom(bucket, during);
    }
  }
}
