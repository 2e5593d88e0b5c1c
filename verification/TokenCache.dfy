/**
  The installation token cache: coroutines that interleave at their awaits, one lock for all
  installations, and a check of the cache before and after taking it.
 */
module TokenCache {
  import opened Wrappers

  const RENEW_BEFORE_EXPIRY := 300

  datatype Token = Token(secret: string, expiresAt: int)

  predicate UsableAt(token: Token, now: int) {
    now + RENEW_BEFORE_EXPIRY < token.expiresAt
  }

  /** Where a coroutine stands: queued on the lock, holding it while the exchange is in flight, or finished. */
  datatype Phase =
    | Queued(installation: int) | Fetching(installation: int)
    | Returned(installation: int, token: Token) | Raised

  /** What the token endpoint saw: exchanges beginning, succeeding and failing. */
  datatype Entry =
    | Began(installation: int, at: int)
    | Stored(installation: int, at: int, token: Token)
    | Failed(installation: int)

  datatype State = State(
    tokens: map<int, Token>, holder: Option<int>, phases: map<int, Phase>, now: int, log: seq<Entry>)

  function Start(now: int): State {
    State(map[], None, map[], now, [])
  }

  predicate Cached(st: State, installation: int) {
    installation in st.tokens && UsableAt(st.tokens[installation], st.now)
  }

  /** One stretch of one coroutine between awaits, or time passing. */
  datatype Step =
    | Ask(caller: int, installation: int)
    | Enter(caller: int)
    | Succeed(caller: int, token: Token)
    | Fail(caller: int)
    | GiveUp(caller: int)
    | Tick(seconds: nat)

  predicate Enabled(st: State, step: Step) {
    match step
    case Ask(c, _) => c !in st.phases
    case Enter(c) => c in st.phases && st.phases[c].Queued? && st.holder.None?
    case Succeed(c, _) => c in st.phases && st.phases[c].Fetching?
    case Fail(c) => c in st.phases && st.phases[c].Fetching?
    case GiveUp(c) => c in st.phases && st.phases[c].Queued?
    case Tick(_) => true
  }

  function Do(st: State, step: Step): State
    requires Enabled(st, step)
  {
    match step
    case Ask(c, i) =>
      if Cached(st, i) then st.(phases := st.phases[c := Returned(i, st.tokens[i])])
      else st.(phases := st.phases[c := Queued(i)])
    case Enter(c) =>
      var i := st.phases[c].installation;
      if Cached(st, i) then st.(phases := st.phases[c := Returned(i, st.tokens[i])])
      else st.(phases := st.phases[c := Fetching(i)], holder := Some(c), log := st.log + [Began(i, st.now)])
    case Succeed(c, token) =>
      var i := st.phases[c].installation;
      st.(tokens := st.tokens[i := token], phases := st.phases[c := Returned(i, token)], holder := None,
          log := st.log + [Stored(i, st.now, token)])
    case Fail(c) =>
      st.(phases := st.phases[c := Raised], holder := None, log := st.log + [Failed(st.phases[c].installation)])
    case GiveUp(c) => st.(phases := st.phases[c := Raised])
    case Tick(seconds) => st.(now := st.now + seconds)
  }

  ghost predicate CanRun(st: State, run: seq<Step>)
    decreases |run|
  {
    run == [] || (Enabled(st, run[0]) && CanRun(Do(st, run[0]), run[1..]))
  }

  ghost function RunAll(st: State, run: seq<Step>): State
    requires CanRun(st, run)
    decreases |run|
  {
    if run == [] then st else RunAll(Do(st, run[0]), run[1..])
  }

  // ---------------------------------------------------------------------------------------------
  // Invariant
  // ---------------------------------------------------------------------------------------------

  /** The lock is held exactly by the coroutine whose exchange is in flight. */
  ghost predicate LockIsTheFetch(st: State) {
    && (st.holder.Some? ==> st.holder.value in st.phases)
    && forall c :: c in st.phases ==> (st.phases[c].Fetching? <==> st.holder == Some(c))
  }

  /** Exchanges do not overlap: beginnings and ends alternate, each end is its beginning's. */
  ghost predicate Alternating(log: seq<Entry>) {
    && (forall k :: 0 <= k < |log| ==> (log[k].Began? <==> k % 2 == 0))
    && forall k :: 0 <= k < |log| && !log[k].Began? ==> k > 0 && log[k].installation == log[k - 1].installation
  }

  /** The last entry is the beginning of the exchange in flight, if there is one. */
  ghost predicate LogMatchesLock(st: State) {
    if st.holder.None? then |st.log| % 2 == 0
    else
      && |st.log| % 2 == 1 && st.holder.value in st.phases && st.phases[st.holder.value].Fetching?
      && st.log[|st.log| - 1].installation == st.phases[st.holder.value].installation
      && !Cached(st, st.phases[st.holder.value].installation)
  }

  function LastStored(log: seq<Entry>, installation: int): Option<Token> {
    if log == [] then None
    else if log[|log| - 1].Stored? && log[|log| - 1].installation == installation then Some(log[|log| - 1].token)
    else LastStored(log[..|log| - 1], installation)
  }

  /** The cache is what the successful exchanges left; a failed one leaves nothing. */
  ghost predicate CacheIsTheLog(st: State) {
    forall i :: LastStored(st.log, i) == if i in st.tokens then Some(st.tokens[i]) else None
  }

  /** Of all tokens ever stored for an installation, none but the cached one is still usable. */
  ghost predicate OthersAreStale(st: State) {
    forall k :: 0 <= k < |st.log| && st.log[k].Stored? ==>
      && st.log[k].installation in st.tokens
      && (st.tokens[st.log[k].installation] == st.log[k].token || !UsableAt(st.log[k].token, st.now))
  }

  /** No exchange begins while any token stored earlier for the installation is usable. */
  ghost predicate NeverEarly(log: seq<Entry>) {
    forall k, l ::
      0 <= k < l < |log| && log[k].Stored? && log[l].Began? && log[k].installation == log[l].installation ==>
      !UsableAt(log[k].token, log[l].at)
  }

  ghost predicate InThePast(st: State) {
    forall k :: 0 <= k < |st.log| && st.log[k].Began? ==> st.log[k].at <= st.now
  }

  /** A caller returns only a token that an exchange for its own installation bought. */
  ghost predicate ReturnsAreBought(st: State) {
    forall c :: c in st.phases && st.phases[c].Returned? ==>
      Bought(st.log, st.phases[c].installation, st.phases[c].token)
  }

  ghost predicate Bought(log: seq<Entry>, installation: int, token: Token) {
    exists k :: 0 <= k < |log| && log[k].Stored? && log[k].installation == installation && log[k].token == token
  }

  ghost predicate Invariant(st: State) {
    && LockIsTheFetch(st)
    && Alternating(st.log)
    && LogMatchesLock(st)
    && CacheIsTheLog(st)
    && OthersAreStale(st)
    && NeverEarly(st.log)
    && InThePast(st)
    && ReturnsAreBought(st)
  }

  lemma {:induction false} LastStoredWasBought(log: seq<Entry>, installation: int)
    requires LastStored(log, installation).Some?
    ensures Bought(log, installation, LastStored(log, installation).value)
  {
    if !(log[|log| - 1].Stored? && log[|log| - 1].installation == installation) {
      LastStoredWasBought(log[..|log| - 1], installation);
    }
  }

  lemma LastStoredOfOneMore(log: seq<Entry>, e: Entry, installation: int)
    ensures LastStored(log + [e], installation)
         == if e.Stored? && e.installation == installation then Some(e.token) else LastStored(log, installation)
  {
    assert (log + [e])[..|log|] == log;
  }

  lemma BoughtStays(log: seq<Entry>, e: Entry, installation: int, token: Token)
    requires Bought(log, installation, token)
    ensures Bought(log + [e], installation, token)
  {
    var k :| 0 <= k < |log| && log[k].Stored? && log[k].installation == installation && log[k].token == token;
    assert (log + [e])[k] == log[k];
  }

  lemma CachedReturnKeeps(st: State, c: int, i: int)
    requires Invariant(st) && Cached(st, i) && st.holder != Some(c)
    ensures Invariant(st.(phases := st.phases[c := Returned(i, st.tokens[i])]))
  {
    assert LastStored(st.log, i) == Some(st.tokens[i]);
    LastStoredWasBought(st.log, i);
  }

  lemma BeginKeepsTheLog(st: State, c: int)
    requires Invariant(st) && Enabled(st, Enter(c)) && !Cached(st, st.phases[c].installation)
    ensures var later := Do(st, Enter(c));
            && LockIsTheFetch(later) && Alternating(later.log) && LogMatchesLock(later) && NeverEarly(later.log)
            && InThePast(later) && OthersAreStale(later)
  {
  }

  lemma BeginKeeps(st: State, c: int)
    requires Invariant(st) && Enabled(st, Enter(c)) && !Cached(st, st.phases[c].installation)
    ensures Invariant(Do(st, Enter(c)))
  {
    BeginKeepsTheLog(st, c);
    NoStoreKeeps(st, Do(st, Enter(c)), Began(st.phases[c].installation, st.now));
  }

  /** An entry that stores nothing, beside a change of phases that returns nothing. */
  lemma NoStoreKeeps(st: State, later: State, e: Entry)
    requires CacheIsTheLog(st) && ReturnsAreBought(st)
    requires later.log == st.log + [e] && !e.Stored? && later.tokens == st.tokens
    requires forall c :: c in later.phases && later.phases[c].Returned? ==>
               c in st.phases && later.phases[c] == st.phases[c]
    ensures CacheIsTheLog(later) && ReturnsAreBought(later)
  {
    forall i
      ensures LastStored(later.log, i) == LastStored(st.log, i)
    {
      LastStoredOfOneMore(st.log, e, i);
    }
    forall d | d in later.phases && later.phases[d].Returned?
      ensures Bought(later.log, later.phases[d].installation, later.phases[d].token)
    {
      BoughtStays(st.log, e, later.phases[d].installation, later.phases[d].token);
    }
  }

  lemma SuccessKeepsTheLog(st: State, c: int, token: Token)
    requires Invariant(st) && Enabled(st, Succeed(c, token))
    ensures var later := Do(st, Succeed(c, token));
            && LockIsTheFetch(later) && Alternating(later.log) && LogMatchesLock(later)
            && NeverEarly(later.log) && InThePast(later)
  {
    assert st.holder == Some(c);
  }

  lemma SuccessKeepsTheCache(st: State, c: int, token: Token)
    requires Invariant(st) && Enabled(st, Succeed(c, token))
    ensures CacheIsTheLog(Do(st, Succeed(c, token))) && OthersAreStale(Do(st, Succeed(c, token)))
  {
    var later, e := Do(st, Succeed(c, token)), Stored(st.phases[c].installation, st.now, token);
    assert st.holder == Some(c);
    forall i
      ensures LastStored(later.log, i) == if i in later.tokens then Some(later.tokens[i]) else None
    {
      LastStoredOfOneMore(st.log, e, i);
    }
  }

  lemma SuccessKeepsReturns(st: State, c: int, token: Token)
    requires Invariant(st) && Enabled(st, Succeed(c, token))
    ensures ReturnsAreBought(Do(st, Succeed(c, token)))
  {
    var later, e := Do(st, Succeed(c, token)), Stored(st.phases[c].installation, st.now, token);
    assert later.log[|st.log|] == e;
    forall d | d in later.phases && later.phases[d].Returned?
      ensures Bought(later.log, later.phases[d].installation, later.phases[d].token)
    {
      if d != c {
        BoughtStays(st.log, e, later.phases[d].installation, later.phases[d].token);
      }
    }
  }

  lemma SuccessKeeps(st: State, c: int, token: Token)
    requires Invariant(st) && Enabled(st, Succeed(c, token))
    ensures Invariant(Do(st, Succeed(c, token)))
  {
    SuccessKeepsTheLog(st, c, token);
    SuccessKeepsTheCache(st, c, token);
    SuccessKeepsReturns(st, c, token);
  }

  lemma FailureKeepsTheLog(st: State, c: int)
    requires Invariant(st) && Enabled(st, Fail(c))
    ensures var later := Do(st, Fail(c));
            && LockIsTheFetch(later) && Alternating(later.log) && LogMatchesLock(later) && NeverEarly(later.log)
            && InThePast(later) && OthersAreStale(later)
  {
    assert st.holder == Some(c);
  }

  lemma FailureKeeps(st: State, c: int)
    requires Invariant(st) && Enabled(st, Fail(c))
    ensures Invariant(Do(st, Fail(c)))
  {
    FailureKeepsTheLog(st, c);
    NoStoreKeeps(st, Do(st, Fail(c)), Failed(st.phases[c].installation));
  }

  lemma StepKeeps(st: State, step: Step)
    requires Invariant(st) && Enabled(st, step)
    ensures Invariant(Do(st, step))
  {
    match step
    case Ask(c, i) =>
      if Cached(st, i) {
        CachedReturnKeeps(st, c, i);
      }
    case Enter(c) =>
      if Cached(st, st.phases[c].installation) {
        CachedReturnKeeps(st, c, st.phases[c].installation);
      } else {
        BeginKeeps(st, c);
      }
    case Succeed(c, token) => SuccessKeeps(st, c, token);
    case Fail(c) => FailureKeeps(st, c);
    case GiveUp(_) =>
    case Tick(_) =>
  }

  /** Whatever the interleaving, whatever fails and however time passes. */
  lemma {:induction false} InvariantAlways(st: State, run: seq<Step>)
    requires Invariant(st) && CanRun(st, run)
    ensures Invariant(RunAll(st, run))
    decreases |run|
  {
    if run != [] {
      StepKeeps(st, run[0]);
      InvariantAlways(Do(st, run[0]), run[1..]);
    }
  }

  // ---------------------------------------------------------------------------------------------
  // What the cache is for
  // ---------------------------------------------------------------------------------------------

  function Begun(log: seq<Entry>): nat {
    if log == [] then 0 else Begun(log[..|log| - 1]) + if log[|log| - 1].Began? then 1 else 0
  }

  function Ended(log: seq<Entry>): nat {
    if log == [] then 0 else Ended(log[..|log| - 1]) + if log[|log| - 1].Began? then 0 else 1
  }

  lemma {:induction false} AlternationBalances(log: seq<Entry>)
    requires Alternating(log)
    ensures Begun(log) - Ended(log) == |log| % 2
  {
    if log != [] {
      AlternationBalances(log[..|log| - 1]);
      assert log[|log| - 1].Began? <==> (|log| - 1) % 2 == 0;
    }
  }

  function Fetchers(st: State): set<int> {
    set c | c in st.phases && st.phases[c].Fetching?
  }

  /** A token has more than five minutes left. */
  predicate Lasts(token: Token, now: int) {
    token.expiresAt - now > 300
  }

  /** A cached token is handed out exactly while it has more than five minutes left; without one the caller
      queues, and once it holds the lock begins an exchange. */
  lemma TokensAreRenewedEarly(st: State, step: Step, caller: int, i: int)
    requires Enabled(st, step)
    requires step == Ask(caller, i) || (step == Enter(caller) && st.phases[caller] == Queued(i))
    ensures var later := Do(st, step);
            && caller in later.phases && later.tokens == st.tokens && later.now == st.now
            && if i in st.tokens && Lasts(st.tokens[i], st.now) then
                 later.phases[caller] == Returned(i, st.tokens[i]) && later.holder == st.holder && later.log == st.log
               else if step.Ask? then
                 later.phases[caller] == Queued(i) && later.holder == st.holder && later.log == st.log
               else
                 && later.phases[caller] == Fetching(i) && later.holder == Some(caller)
                 && later.log == st.log + [Began(i, st.now)]
  {
  }

  /** Once so much time has passed that five minutes or less are left, the next caller does not get the token. */
  lemma TimeRunsOut(st: State, seconds: nat, caller: int, i: int)
    requires caller !in st.phases && i in st.tokens && st.tokens[i].expiresAt <= st.now + seconds + 300
    ensures Do(Do(st, Tick(seconds)), Ask(caller, i)).phases[caller] == Queued(i)
  {
  }

  /** A caller that has raised is out of it: it never takes the lock or a token again. */
  lemma {:induction false} RaisedForGood(st: State, run: seq<Step>, c: int)
    requires CanRun(st, run) && c in st.phases && st.phases[c].Raised?
    ensures c in RunAll(st, run).phases && RunAll(st, run).phases[c] == Raised
    decreases |run|
  {
    if run != [] {
      RaisedForGood(Do(st, run[0]), run[1..], c);
    }
  }

  /** And a queued caller that is cancelled is such a caller. */
  lemma CancelledForGood(st: State, run: seq<Step>, c: int)
    requires Enabled(st, GiveUp(c)) && CanRun(Do(st, GiveUp(c)), run)
    ensures c in RunAll(Do(st, GiveUp(c)), run).phases && RunAll(Do(st, GiveUp(c)), run).phases[c] == Raised
  {
    RaisedForGood(Do(st, GiveUp(c)), run, c);
  }

  /** From an empty cache, the exchanges that have begun are those that have ended and those of the callers
      now waiting for one, of which there is at most one at any time. */
  lemma OneFetchInFlight(now: int, run: seq<Step>)
    requires CanRun(Start(now), run)
    ensures var st := RunAll(Start(now), run);
            Begun(st.log) == Ended(st.log) + |Fetchers(st)| && |Fetchers(st)| <= 1
  {
    InvariantAlways(Start(now), run);
    var st := RunAll(Start(now), run);
    AlternationBalances(st.log);
    var holders := if st.holder.Some? then {st.holder.value} else {};
    forall c
      ensures c in Fetchers(st) <==> c in holders
    {
    }
    assert Fetchers(st) == holders;
  }

  /** However many callers ask, two tokens for one installation are never usable at once: a burst buys
      one, and a further exchange follows only failures. */
  lemma BurstBuysOnce(now: int, run: seq<Step>, k: nat, l: nat)
    requires CanRun(Start(now), run)
    requires var st := RunAll(Start(now), run);
             && k < l < |st.log| && st.log[k].Stored? && !st.log[l].Failed?
             && st.log[k].installation == st.log[l].installation
    ensures !Lasts(RunAll(Start(now), run).log[k].token, RunAll(Start(now), run).now)
  {
    InvariantAlways(Start(now), run);
    var st := RunAll(Start(now), run);
    if st.log[l].Stored? {
      assert st.log[l - 1].Began? && l - 1 > k;
    }
  }

  /** While a cached token stays usable, no waiter begins an exchange and the entry does not change. */
  lemma {:induction false} UsableTokenIsKept(st: State, run: seq<Step>, i: int)
    requires Invariant(st) && CanRun(st, run) && i in st.tokens && Lasts(st.tokens[i], RunAll(st, run).now)
    ensures var later := RunAll(st, run);
            && i in later.tokens && later.tokens[i] == st.tokens[i]
            && st.log <= later.log
            && forall k :: |st.log| <= k < |later.log| && later.log[k].Began? ==> later.log[k].installation != i
    decreases |run|
  {
    if run != [] {
      var next := Do(st, run[0]);
      StepKeeps(st, run[0]);
      TimeNeverRunsBack(next, run[1..]);
      assert next.tokens == st.tokens || (run[0].Succeed? && st.holder == Some(run[0].caller));
      UsableTokenIsKept(next, run[1..], i);
    }
  }

  lemma {:induction false} TimeNeverRunsBack(st: State, run: seq<Step>)
    requires CanRun(st, run)
    ensures RunAll(st, run).now >= st.now
    decreases |run|
  {
    if run != [] {
      TimeNeverRunsBack(Do(st, run[0]), run[1..]);
    }
  }

  /** The lock is never lost: whoever is queued can enter, or waits for an exchange that can end, whether
      it succeeds or fails. */
  lemma NobodyIsStuck(now: int, run: seq<Step>, c: int)
    requires CanRun(Start(now), run)
    requires var st := RunAll(Start(now), run); c in st.phases && st.phases[c].Queued?
    ensures var st := RunAll(Start(now), run);
            || Enabled(st, Enter(c))
            || (st.holder.Some? && Enabled(st, Fail(st.holder.value)) &&
               Enabled(Do(st, Fail(st.holder.value)), Enter(c)))
  {
    InvariantAlways(Start(now), run);
  }

  // ---------------------------------------------------------------------------------------------
  // The cache, updated in place
  // ---------------------------------------------------------------------------------------------

  /** What the cache gives: the stored token if it lasts, and otherwise nothing. */
  predicate Hits(tokens: map<int, Token>, installation: int, now: int, found: Option<Token>) {
    found == if installation in tokens && Lasts(tokens[installation], now) then Some(tokens[installation]) else None
  }

  /** The module's dictionary and lock. Each method is one stretch of `installation_token` between awaits. */
  class Cache {
    var tokens: map<int, Token>
    var holder: Option<int>
    ghost var phases: map<int, Phase>
    ghost var log: seq<Entry>

    ghost function Seen(now: int): State
      reads this
    {
      State(tokens, holder, phases, now, log)
    }

    constructor ()
      ensures forall now :: Seen(now) == Start(now)
    {
      tokens := map[];
      holder := None;
      phases := map[];
      log := [];
    }

    /** Up to the lock. */
    method Ask(caller: int, installation: int, now: int) returns (found: Option<Token>)
      requires caller !in phases
      modifies this
      ensures Seen(now) == Do(old(Seen(now)), Step.Ask(caller, installation))
      ensures found.Some? ==> phases[caller] == Returned(installation, found.value)
      ensures Hits(tokens, installation, now, found) && tokens == old(tokens) && holder == old(holder)
    {
      found := None;
      if installation in tokens && UsableAt(tokens[installation], now) {
        found := Some(tokens[installation]);
      }
      phases := phases[caller := if found.Some? then Returned(installation, found.value) else Queued(installation)];
    }

    /** From the lock's release up to the exchange. */
    method Enter(caller: int, installation: int, now: int) returns (found: Option<Token>)
      requires holder.None? && caller in phases && phases[caller] == Queued(installation)
      modifies this
      ensures Seen(now) == Do(old(Seen(now)), Step.Enter(caller))
      ensures found.Some? ==> phases[caller] == Returned(installation, found.value) && holder == old(holder)
      ensures found.None? ==> holder == Some(caller)
      ensures Hits(tokens, installation, now, found) && tokens == old(tokens)
    {
      found := None;
      if installation in tokens && UsableAt(tokens[installation], now) {
        found := Some(tokens[installation]);
        phases := phases[caller := Returned(installation, found.value)];
      } else {
        holder := Some(caller);
        phases := phases[caller := Fetching(installation)];
        log := log + [Began(installation, now)];
      }
    }

    /** After the exchange, which answered with a token or raised. */
    method Finish(caller: int, installation: int, answer: Option<Token>, now: int)
      requires caller in phases && phases[caller] == Fetching(installation)
      modifies this
      ensures Seen(now) == Do(old(Seen(now)), if answer.Some? then Succeed(caller, answer.value) else Fail(caller))
      ensures holder == None
      ensures tokens == if answer.Some? then old(tokens)[installation := answer.value] else old(tokens)
    {
      holder := None;
      if answer.Some? {
        tokens := tokens[installation := answer.value];
        phases := phases[caller := Returned(installation, answer.value)];
        log := log + [Stored(installation, now, answer.value)];
      } else {
        phases := phases[caller := Raised];
        log := log + [Failed(installation)];
      }
    }
  }
}
