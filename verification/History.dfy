/**
  The crawl over a fixed history: which runs are recorded, and the crawl as a client of the queue, with
  crashes, rollbacks, deferrals and reaps of dead workers anywhere.
 */
module History {
  import opened Wrappers
  import opened Backfill
  import opened Crawl
  import Q = Queue
  import opened Protocol

  /** The runs created on each day, newest first. */
  type RunsOn = int -> seq<Run>

  /** The runs of the days lo..hi, newest first. */
  function Between(runsOn: RunsOn, lo: int, hi: int): seq<Run>
    decreases hi - lo + 1
  {
    if hi < lo then [] else runsOn(hi) + Between(runsOn, lo, hi - 1)
  }

  lemma {:induction false} BetweenInTwo(runsOn: RunsOn, lo: int, mid: int, hi: int)
    requires lo <= mid <= hi + 1
    ensures Between(runsOn, lo, hi) == Between(runsOn, mid, hi) + Between(runsOn, lo, mid - 1)
    decreases hi - lo + 1
  {
    if mid == hi + 1 {
      assert Between(runsOn, mid, hi) == [];
    } else {
      BetweenInTwo(runsOn, lo, mid, hi - 1);
      assert Between(runsOn, lo, hi) == runsOn(hi) + (Between(runsOn, mid, hi - 1) + Between(runsOn, lo, mid - 1));
    }
  }

  /** GitHub's answer for a page of a window: the total, and a slice of the reachable results. */
  function PageAnswer(settings: Settings, runsOn: RunsOn, window: Window, page: int): Answer
    requires Sensible(settings) && page >= 1
  {
    var all := Between(runsOn, window.start, window.end);
    var reachable := Min(|all|, settings.resultCap);
    var from, to := Min((page - 1) * settings.pageSize, reachable), Min(page * settings.pageSize, reachable);
    assert page * settings.pageSize == (page - 1) * settings.pageSize + settings.pageSize;
    assert (page - 1) * settings.pageSize >= 0;
    Listing(|all|, all[from..to])
  }

  /** What the listing can be made to give: of a day over the cap, which no window can be narrower than,
      only the newest results are within reach. */
  function Kept(settings: Settings, runsOn: RunsOn): RunsOn {
    day => if 0 <= settings.resultCap < |runsOn(day)| then runsOn(day)[..settings.resultCap] else runsOn(day)
  }

  lemma {:induction false} UnderTheCapAllIsKept(settings: Settings, runsOn: RunsOn, lo: int, hi: int)
    requires |Between(runsOn, lo, hi)| <= settings.resultCap
    ensures Between(Kept(settings, runsOn), lo, hi) == Between(runsOn, lo, hi)
    decreases hi - lo + 1
  {
    if lo <= hi {
      UnderTheCapAllIsKept(settings, runsOn, lo, hi - 1);
    }
  }

  /** A window that needs no narrowing, or allows none, yields its first results up to the cap. */
  lemma KeptOfWindow(settings: Settings, runsOn: RunsOn, window: Window)
    requires Sensible(settings) && window.start <= window.end
    requires |Between(runsOn, window.start, window.end)| <= settings.resultCap || window.Span() < 1
    ensures var all := Between(runsOn, window.start, window.end);
            Between(Kept(settings, runsOn), window.start, window.end) == all[..Min(|all|, settings.resultCap)]
  {
    var all := Between(runsOn, window.start, window.end);
    if |all| <= settings.resultCap {
      UnderTheCapAllIsKept(settings, runsOn, window.start, window.end);
      assert all[..|all|] == all;
    } else {
      SingleDay(runsOn, window.end);
      SingleDay(Kept(settings, runsOn), window.end);
    }
  }

  /** A day that fits under the cap is kept whole. */
  lemma {:induction false} NoDayOverCapKeepsAll(settings: Settings, runsOn: RunsOn, lo: int, hi: int)
    requires forall day :: lo <= day <= hi ==> |runsOn(day)| <= settings.resultCap
    ensures Between(Kept(settings, runsOn), lo, hi) == Between(runsOn, lo, hi)
    decreases hi - lo + 1
  {
    if lo <= hi {
      NoDayOverCapKeepsAll(settings, runsOn, lo, hi - 1);
    }
  }

  /** The results within reach of the current window that earlier pages have recorded. */
  function SeenOfCurrent(settings: Settings, runsOn: RunsOn, cursor: Cursor): seq<Run> {
    if !cursor.status.Running? || cursor.window.None? then []
    else
      var reach := Between(Kept(settings, runsOn), cursor.window.value.start, cursor.window.value.end);
      var seen := (PageOf(cursor) - 1) * settings.pageSize;
      if 0 <= seen <= |reach| then reach[..seen] else reach
  }

  /** The window of a cursor past its first page is not to be narrowed any more. */
  ghost predicate Settled(settings: Settings, runsOn: RunsOn, window: Window) {
    |Between(runsOn, window.start, window.end)| <= settings.resultCap || window.Span() < 1
  }

  /** What has been recorded is the runs within reach of the finished windows and of the finished pages of
      the current one, each once, newest first; and a jobs row for each of their attempts. */
  ghost predicate Faithful(
    settings: Settings, runsOn: RunsOn, p: Progress, recorded: seq<Run>, jobsRows: seq<(int, int)>)
  {
    && recorded == Between(Kept(settings, runsOn), Uncovered(p.today, p.finished) + 1, p.today) +
                   SeenOfCurrent(settings, runsOn, p.cursor)
    && jobsRows == JobsRows(recorded)
    && (p.cursor.status.Running? && PageOf(p.cursor) > 1 ==>
          && p.cursor.window.Some? && Settled(settings, runsOn, p.cursor.window.value)
          && (PageOf(p.cursor) - 1) * settings.pageSize
             < |Between(Kept(settings, runsOn), p.cursor.window.value.start, p.cursor.window.value.end)|)
  }

  lemma SingleDay(runsOn: RunsOn, day: int)
    ensures Between(runsOn, day, day) == runsOn(day)
  {
    assert Between(runsOn, day, day - 1) == [];
  }

  /** The slice of the next page, of the first `limit` results, extends the slices before it. */
  lemma SliceExtends(all: seq<Run>, limit: nat, pages: int, page: int, size: int)
    requires limit <= |all| && size >= 1 && pages >= 0 && page == pages + 1
    requires pages * size <= limit
    ensures pages * size >= 0 && page * size == pages * size + size
    ensures all[..limit][..pages * size] + all[Min(pages * size, limit)..Min(page * size, limit)]
         == all[..limit][..Min(page * size, limit)]
  {
    assert page * size == pages * size + size;
  }

  /** A page that is recorded extends what was seen by exactly its slice. */
  lemma PageIsTheNextSlice(settings: Settings, runsOn: RunsOn, window: Window, page: int)
    requires Sensible(settings) && window.start <= window.end && page >= 1 && Settled(settings, runsOn, window)
    requires page > 1 ==>
               (page - 1) * settings.pageSize < |Between(Kept(settings, runsOn), window.start, window.end)|
    ensures var reach := Between(Kept(settings, runsOn), window.start, window.end);
            var answer := PageAnswer(settings, runsOn, window, page);
            && |reach| == Min(answer.total, settings.resultCap)
            && 0 <= (page - 1) * settings.pageSize <= |reach|
            && page * settings.pageSize >= 0
            && reach[..(page - 1) * settings.pageSize] + answer.runs == reach[..Min(page * settings.pageSize, |reach|)]
            && (page * settings.pageSize < |reach| ==> |answer.runs| > 0)
  {
    var all := Between(runsOn, window.start, window.end);
    KeptOfWindow(settings, runsOn, window);
    SliceExtends(all, Min(|all|, settings.resultCap), page - 1, page, settings.pageSize);
  }

  ghost predicate Ready(
    settings: Settings, runsOn: RunsOn, p: Progress, recorded: seq<Run>, jobsRows: seq<(int, int)>)
  {
    && Sensible(settings)
    && WellPlaced(p) && p.cursor.status.Running? && Faithful(settings, runsOn, p, recorded, jobsRows)
  }

  function AnswerTo(settings: Settings, runsOn: RunsOn, p: Progress): Answer
    requires Sensible(settings) && WellPlaced(p) && p.cursor.status.Running?
  {
    PageAnswer(settings, runsOn, p.cursor.window.value, PageOf(p.cursor))
  }

  predicate Narrows(settings: Settings, p: Progress, answer: Answer) {
    && p.cursor.window.Some? && answer.Listing?
    && PageOf(p.cursor) == 1 && answer.total > settings.resultCap && p.cursor.window.value.Span() >= 1
  }

  lemma NarrowingIsFaithful(
    settings: Settings, runsOn: RunsOn, p: Progress, floor: int, recorded: seq<Run>, jobsRows: seq<(int, int)>)
    requires Ready(settings, runsOn, p, recorded, jobsRows) && Narrows(settings, p, AnswerTo(settings, runsOn, p))
    ensures Faithful(settings, runsOn, Advance(settings, p, floor, AnswerTo(settings, runsOn, p)), recorded, jobsRows)
    ensures HandlePage(settings, p.cursor, floor, AnswerTo(settings, runsOn, p)).recorded == []
  {
    hide Between, Kept, JobsRows;
    var q := Advance(settings, p, floor, AnswerTo(settings, runsOn, p));
    assert p.finished + [] == p.finished;
    assert SeenOfCurrent(settings, runsOn, p.cursor) == [] == SeenOfCurrent(settings, runsOn, q.cursor);
  }

  ghost predicate Records(
    settings: Settings, runsOn: RunsOn, p: Progress, recorded: seq<Run>, jobsRows: seq<(int, int)>)
  {
    Ready(settings, runsOn, p, recorded, jobsRows) && !Narrows(settings, p, AnswerTo(settings, runsOn, p))
  }

  /** The results within reach of the current window. */
  function Reach(settings: Settings, runsOn: RunsOn, p: Progress): seq<Run>
    requires p.cursor.window.Some?
  {
    Between(Kept(settings, runsOn), p.cursor.window.value.start, p.cursor.window.value.end)
  }

  lemma CurrentPageIsTheNextSlice(
    settings: Settings, runsOn: RunsOn, p: Progress, recorded: seq<Run>, jobsRows: seq<(int, int)>)
    requires Records(settings, runsOn, p, recorded, jobsRows)
    ensures var reach := Reach(settings, runsOn, p);
            var answer, next := AnswerTo(settings, runsOn, p), PageOf(p.cursor) * settings.pageSize;
            && |reach| == Min(answer.total, settings.resultCap) && next >= 0
            && SeenOfCurrent(settings, runsOn, p.cursor) + answer.runs == reach[..Min(next, |reach|)]
            && (next < |reach| ==> |answer.runs| > 0)
  {
    assert Settled(settings, runsOn, p.cursor.window.value);
    PageIsTheNextSlice(settings, runsOn, p.cursor.window.value, PageOf(p.cursor));
  }

  /** The results of the current window, and what of them is recorded with this page. */
  lemma RecordedSlice(settings: Settings, runsOn: RunsOn, p: Progress, recorded: seq<Run>, jobsRows: seq<(int, int)>)
    requires Records(settings, runsOn, p, recorded, jobsRows)
    ensures var reach := Reach(settings, runsOn, p);
            var answer, next := AnswerTo(settings, runsOn, p), PageOf(p.cursor) * settings.pageSize;
            && |reach| == Min(answer.total, settings.resultCap) && next >= 0
            && recorded + answer.runs == Between(Kept(settings, runsOn), Uncovered(p.today, p.finished) + 1, p.today) +
                                         reach[..Min(next, |reach|)]
            && jobsRows + JobsRows(answer.runs) == JobsRows(recorded + answer.runs)
            && (next < |reach| ==> |answer.runs| > 0)
  {
    CurrentPageIsTheNextSlice(settings, runsOn, p, recorded, jobsRows);
    var done := Between(Kept(settings, runsOn), Uncovered(p.today, p.finished) + 1, p.today);
    var page := AnswerTo(settings, runsOn, p).runs;
    RecordedOneMorePage(done, SeenOfCurrent(settings, runsOn, p.cursor), page, recorded, jobsRows);
  }

  lemma RecordedOneMorePage(
    done: seq<Run>, seen: seq<Run>, page: seq<Run>, recorded: seq<Run>, jobsRows: seq<(int, int)>)
    requires recorded == done + seen && jobsRows == JobsRows(recorded)
    ensures recorded + page == done + (seen + page) && jobsRows + JobsRows(page) == JobsRows(recorded + page)
  {
    JobsRowsOfConcat(recorded, page);
  }

  lemma NextPageIsFaithful(
    settings: Settings, runsOn: RunsOn, p: Progress, floor: int, recorded: seq<Run>, jobsRows: seq<(int, int)>)
    requires Records(settings, runsOn, p, recorded, jobsRows)
    requires PageOf(p.cursor) * settings.pageSize < |Reach(settings, runsOn, p)|
    ensures var answer := AnswerTo(settings, runsOn, p);
            && HandlePage(settings, p.cursor, floor, answer).recorded == answer.runs
            && Faithful(settings, runsOn, Advance(settings, p, floor, answer),
                        recorded + answer.runs, jobsRows + JobsRows(answer.runs))
  {
    hide Between, Kept, JobsRows;
    RecordedSlice(settings, runsOn, p, recorded, jobsRows);
    var q := Advance(settings, p, floor, AnswerTo(settings, runsOn, p));
    assert p.finished + [] == p.finished;
    assert Settled(settings, runsOn, p.cursor.window.value);
    assert q.cursor == Cursor(p.cursor.window, Some(PageOf(p.cursor) + 1), Running);
  }

  lemma LastPageIsFaithful(
    settings: Settings, runsOn: RunsOn, p: Progress, floor: int, recorded: seq<Run>, jobsRows: seq<(int, int)>)
    requires Records(settings, runsOn, p, recorded, jobsRows)
    requires PageOf(p.cursor) * settings.pageSize >= |Reach(settings, runsOn, p)|
    ensures var answer := AnswerTo(settings, runsOn, p);
            && HandlePage(settings, p.cursor, floor, answer).recorded == answer.runs
            && Faithful(settings, runsOn, Advance(settings, p, floor, answer),
                        recorded + answer.runs, jobsRows + JobsRows(answer.runs))
  {
    hide Between, Kept, JobsRows;
    RecordedSlice(settings, runsOn, p, recorded, jobsRows);
    var reach := Reach(settings, runsOn, p);
    var q := Advance(settings, p, floor, AnswerTo(settings, runsOn, p));
    assert reach[..|reach|] == reach;
    assert q.finished == p.finished + [p.cursor.window.value];
    WindowIsComplete(settings, Kept(settings, runsOn), p, q, reach);
    NothingSeenYet(settings, runsOn, q.cursor);
    var done := Between(Kept(settings, runsOn), Uncovered(q.today, q.finished) + 1, q.today);
    assert done + [] == done;
  }

  lemma NothingSeenYet(settings: Settings, runsOn: RunsOn, cursor: Cursor)
    requires cursor.page.Some? ==> cursor.page.value == 1
    ensures SeenOfCurrent(settings, runsOn, cursor) == [] && PageOf(cursor) == 1
  {
  }

  lemma PageIsFaithful(
    settings: Settings, runsOn: RunsOn, p: Progress, floor: int, recorded: seq<Run>, jobsRows: seq<(int, int)>)
    requires Ready(settings, runsOn, p, recorded, jobsRows)
    ensures var answer := AnswerTo(settings, runsOn, p);
            var r := HandlePage(settings, p.cursor, floor, answer);
            Faithful(settings, runsOn, Advance(settings, p, floor, answer), recorded + r.recorded,
                     jobsRows + JobsRows(r.recorded))
  {
    if Narrows(settings, p, AnswerTo(settings, runsOn, p)) {
      NarrowingIsFaithful(settings, runsOn, p, floor, recorded, jobsRows);
      assert recorded + [] == recorded && jobsRows + [] == jobsRows;
    } else if PageOf(p.cursor) * settings.pageSize < |Reach(settings, runsOn, p)| {
      NextPageIsFaithful(settings, runsOn, p, floor, recorded, jobsRows);
    } else {
      LastPageIsFaithful(settings, runsOn, p, floor, recorded, jobsRows);
    }
  }

  lemma WindowIsComplete(settings: Settings, runsOn: RunsOn, p: Progress, q: Progress, all: seq<Run>)
    requires WellPlaced(p) && p.cursor.status.Running? && Adjoining(p.today, p.finished)
    requires all == Between(runsOn, p.cursor.window.value.start, p.cursor.window.value.end)
    requires q.today == p.today && q.finished == p.finished + [p.cursor.window.value]
    ensures Between(runsOn, Uncovered(p.today, p.finished) + 1, p.today) + all ==
            Between(runsOn, Uncovered(q.today, q.finished) + 1, q.today)
  {
    EachDayOnce(p.today, p.finished, 0);
    BetweenInTwo(runsOn, p.cursor.window.value.start, Uncovered(p.today, p.finished) + 1, p.today);
  }

  // ---------------------------------------------------------------------------------------------
  // Each attempt once
  // ---------------------------------------------------------------------------------------------

  ghost predicate DistinctRuns(runs: seq<Run>) {
    && (forall i :: 0 <= i < |runs| ==> Truthy(runs[i].id))
    && (forall i, j :: 0 <= i < j < |runs| ==> runs[i].id != runs[j].id)
  }

  lemma {:induction false} AttemptRowsOnce(id: int, latest: int, i: int, attempt: int)
    ensures multiset(AttemptRows(id, latest))[(i, attempt)] == if i == id && 1 <= attempt <= latest then 1 else 0
    decreases if latest < 0 then 0 else latest
  {
    if latest >= 1 {
      AttemptRowsOnce(id, latest - 1, i, attempt);
      assert multiset(AttemptRows(id, latest)) == multiset(AttemptRows(id, latest - 1)) + multiset{(id, latest)};
    }
  }

  /** An attempt up to the latest of a run, which without a number is the first. */
  predicate HasAttempt(runs: seq<Run>, id: int, attempt: int) {
    exists i :: 0 <= i < |runs| && runs[i].id == Some(id) && Reaches(runs[i], attempt)
  }

  predicate Reaches(run: Run, attempt: int) {
    if run.latestAttempt == None || run.latestAttempt == Some(0) then attempt == 1
    else 1 <= attempt <= run.latestAttempt.value
  }

  lemma DistinctRest(runs: seq<Run>, id: int, attempt: int)
    requires DistinctRuns(runs) && runs != []
    ensures DistinctRuns(runs[1..])
    ensures HasAttempt(runs, id, attempt) <==>
            (runs[0].id == Some(id) && Reaches(runs[0], attempt)) || HasAttempt(runs[1..], id, attempt)
    ensures !(runs[0].id == Some(id) && HasAttempt(runs[1..], id, attempt))
  {
    var rest := runs[1..];
    assert forall i :: 0 <= i < |rest| ==> rest[i] == runs[i + 1];
    if i :| 0 <= i < |runs| && runs[i].id == Some(id) && 1 <= attempt <= LatestAttempt(runs[i]) {
      assert i > 0 ==> rest[i - 1] == runs[i];
    }
  }

  /** The jobs rows of distinct runs name each attempt from 1 to the latest exactly once, and no other. */
  lemma {:induction false} EachAttemptOnce(runs: seq<Run>, id: int, attempt: int)
    requires DistinctRuns(runs)
    ensures multiset(JobsRows(runs))[(id, attempt)] == if HasAttempt(runs, id, attempt) then 1 else 0
  {
    if runs != [] {
      var run, rest := runs[0], runs[1..];
      DistinctRest(runs, id, attempt);
      EachAttemptOnce(rest, id, attempt);
      AttemptRowsOnce(run.id.value, LatestAttempt(run), id, attempt);
      assert JobsRows(runs) == AttemptRows(run.id.value, LatestAttempt(run)) + JobsRows(rest);
    }
  }

  // ---------------------------------------------------------------------------------------------
  // The crawl on the queue
  // ---------------------------------------------------------------------------------------------

  /** The queue; the crawl; what it recorded; the ids of this repository's runs rows, of which `latest`
      is the newest. */
  datatype System = System(
    queue: Sys, progress: Progress, recorded: seq<Run>, jobsRows: seq<(int, int)>, mine: set<int>, latest: int)

  /** Everything else that happens on the queue, including the failure, the deferral, the crash and the
      reaping of a runs row; or a handled runs row, in the transaction that completes it; or a start. */
  datatype Move =
    | Elsewhere(step: Step)
    | Handle(claim: Claim, floor: int, next: int, row: Q.Row)
    | Start(today: int, observed: bool, next: int, row: Q.Row)

  predicate LiveRow(row: Q.Row) {
    row.status.Pending? || row.status.Processing?
  }

  function LiveMine(s: System): set<int> {
    set id | id in s.mine && id in s.queue.rows && LiveRow(s.queue.rows[id])
  }

  function Enqueued(r: PageResult, next: int, row: Q.Row): Q.Rows {
    if r.enqueue then map[next := row] else map[]
  }

  ghost predicate CanMove(qs: Q.Settings, settings: Settings, runsOn: RunsOn, s: System, m: Move)
    requires Sensible(settings) && WellPlaced(s.progress)
  {
    match m
    case Elsewhere(step) =>
      && Enabled(s.queue, step) && InTime(qs, s.queue, step)
      && (step.Commit? ==> step.claim.job.id !in s.mine)
    case Handle(c, floor, next, row) =>
      && c.job.id in s.mine && Enabled(s.queue, Commit(c, map[next := row]))
    case Start(_, _, next, row) =>
      LiveMine(s) == {} && Enabled(s.queue, Insert(map[next := row]))
  }

  function ResultOf(settings: Settings, runsOn: RunsOn, s: System, floor: int): PageResult
    requires Sensible(settings) && WellPlaced(s.progress)
  {
    if s.progress.cursor.status.Running? then
      HandlePage(settings, s.progress.cursor, floor,
                 PageAnswer(settings, runsOn, s.progress.cursor.window.value, PageOf(s.progress.cursor)))
    else PageResult(s.progress.cursor, [], None, false)
  }

  ghost function Moved(qs: Q.Settings, settings: Settings, runsOn: RunsOn, s: System, m: Move): System
    requires Sensible(settings) && WellPlaced(s.progress) && CanMove(qs, settings, runsOn, s, m)
  {
    match m
    case Elsewhere(step) => s.(queue := Do(qs, s.queue, step))
    case Handle(c, floor, next, row) =>
      var r := ResultOf(settings, runsOn, s, floor);
      System(
        Do(qs, s.queue, Commit(c, Enqueued(r, next, row))),
        Progress(s.progress.today, r.cursor, s.progress.finished + if r.finished.Some? then [r.finished.value] else []),
        s.recorded + r.recorded, s.jobsRows + JobsRows(r.recorded),
        s.mine + Enqueued(r, next, row).Keys, if r.enqueue then next else s.latest)
    case Start(today, observed, next, row) =>
      System(Do(qs, s.queue, Insert(map[next := row])),
             Begin(settings, today, BackfillDays(settings, observed)), [], [], s.mine + {next}, next)
  }

  /** While the crawl runs the newest runs row is the only one that may be live; it is, unless it was
      dead-lettered. When the crawl does not run no runs row is live. */
  ghost predicate OneRunsRow(s: System) {
    && s.mine <= s.queue.rows.Keys
    && (forall id :: id in s.mine && id != s.latest ==> Terminal(s.queue.rows[id]))
    && (s.progress.cursor.status.Running? ==> s.latest in s.mine && !s.queue.rows[s.latest].status.Done?)
    && (!s.progress.cursor.status.Running? ==> forall id :: id in s.mine ==> Terminal(s.queue.rows[id]))
  }

  /** The newest runs row while the crawl runs, unless it was dead-lettered. */
  ghost function ExpectedLive(s: System): set<int>
    requires OneRunsRow(s)
  {
    if s.progress.cursor.status.Running? && !s.queue.rows[s.latest].status.Failed? then {s.latest} else {}
  }

  lemma LiveRowIsTheLatest(s: System)
    requires OneRunsRow(s)
    ensures LiveMine(s) == ExpectedLive(s)
  {
    forall id
      ensures id in LiveMine(s) <==> id in ExpectedLive(s)
    {
    }
  }

  ghost predicate Holds(settings: Settings, runsOn: RunsOn, s: System) {
    && Owned(s.queue) && CommittedOnce(s.queue)
    && WellPlaced(s.progress)
    && OneRunsRow(s)
    && Faithful(settings, runsOn, s.progress, s.recorded, s.jobsRows)
  }

  lemma ElsewhereKeeps(qs: Q.Settings, settings: Settings, runsOn: RunsOn, s: System, m: Move)
    requires Sensible(settings) && Holds(settings, runsOn, s) && m.Elsewhere? && CanMove(qs, settings, runsOn, s, m)
    ensures Holds(settings, runsOn, Moved(qs, settings, runsOn, s, m))
  {
    StepKeepsOwnership(qs, s.queue, m.step);
    StepKeepsCommits(qs, s.queue, m.step);
    var t := Moved(qs, settings, runsOn, s, m);
    forall id | id in s.mine
      ensures id in t.queue.rows
      ensures Terminal(s.queue.rows[id]) ==> t.queue.rows[id] == s.queue.rows[id]
      ensures t.queue.rows[id].status.Done? ==> s.queue.rows[id].status.Done?
    {
      OthersNeverCompleteIt(qs, s.queue, m.step, id);
    }
  }

  /** Only a commit of a row makes it done. */
  lemma OthersNeverCompleteIt(qs: Q.Settings, s: Sys, step: Step, id: int)
    requires Owned(s) && Enabled(s, step) && id in s.rows
    requires step.Commit? ==> step.claim.job.id != id
    ensures var t := Do(qs, s, step);
            && id in t.rows
            && (Terminal(s.rows[id]) ==> t.rows[id] == s.rows[id])
            && (t.rows[id].status.Done? ==> s.rows[id].status.Done?)
  {
  }

  lemma HandleKeepsFaith(qs: Q.Settings, settings: Settings, runsOn: RunsOn, s: System, m: Move)
    requires Sensible(settings) && Holds(settings, runsOn, s)
    requires m.Handle? && CanMove(qs, settings, runsOn, s, m)
    ensures var t := Moved(qs, settings, runsOn, s, m);
            WellPlaced(t.progress) && Faithful(settings, runsOn, t.progress, t.recorded, t.jobsRows)
  {
    var p := s.progress;
    if p.cursor.status.Running? {
      var answer := PageAnswer(settings, runsOn, p.cursor.window.value, PageOf(p.cursor));
      AdvanceKeepsPlace(settings, p, m.floor, answer);
      PageIsFaithful(settings, runsOn, p, m.floor, s.recorded, s.jobsRows);
    } else {
      assert p.finished + [] == p.finished && s.recorded + [] == s.recorded && s.jobsRows + [] == s.jobsRows;
    }
  }

  lemma HandleKeepsRows(qs: Q.Settings, settings: Settings, runsOn: RunsOn, s: System, m: Move)
    requires Sensible(settings) && Holds(settings, runsOn, s)
    requires m.Handle? && CanMove(qs, settings, runsOn, s, m)
    ensures var t := Moved(qs, settings, runsOn, s, m);
            Owned(t.queue) && CommittedOnce(t.queue) && OneRunsRow(t)
  {
    HandleKeepsQueue(qs, settings, runsOn, s, m);
    HandleKeepsOneRow(qs, settings, runsOn, s, m);
  }

  lemma HandleKeepsQueue(qs: Q.Settings, settings: Settings, runsOn: RunsOn, s: System, m: Move)
    requires Sensible(settings) && Holds(settings, runsOn, s)
    requires m.Handle? && CanMove(qs, settings, runsOn, s, m)
    ensures var t := Moved(qs, settings, runsOn, s, m); Owned(t.queue) && CommittedOnce(t.queue)
  {
    var step := Commit(m.claim, Enqueued(ResultOf(settings, runsOn, s, m.floor), m.next, m.row));
    StepKeepsOwnership(qs, s.queue, step);
    StepKeepsCommits(qs, s.queue, step);
  }

  lemma PageEnqueuesWhileRunning(settings: Settings, runsOn: RunsOn, s: System, floor: int)
    requires Sensible(settings) && WellPlaced(s.progress)
    ensures var r := ResultOf(settings, runsOn, s, floor); r.enqueue <==> r.cursor.status.Running?
    ensures !s.progress.cursor.status.Running? ==> ResultOf(settings, runsOn, s, floor).cursor == s.progress.cursor
  {
  }

  lemma HandleKeepsOneRow(qs: Q.Settings, settings: Settings, runsOn: RunsOn, s: System, m: Move)
    requires Sensible(settings) && Holds(settings, runsOn, s)
    requires m.Handle? && CanMove(qs, settings, runsOn, s, m)
    ensures OneRunsRow(Moved(qs, settings, runsOn, s, m))
  {
    hide Faithful, CommittedOnce, ResultOf, JobsRows;
    PageEnqueuesWhileRunning(settings, runsOn, s, m.floor);
    assert m.claim.job.id == s.latest;
  }

  lemma StartKeeps(qs: Q.Settings, settings: Settings, runsOn: RunsOn, s: System, m: Move)
    requires Sensible(settings) && Holds(settings, runsOn, s) && m.Start? && CanMove(qs, settings, runsOn, s, m)
    ensures Holds(settings, runsOn, Moved(qs, settings, runsOn, s, m))
  {
    StepKeepsOwnership(qs, s.queue, Insert(map[m.next := m.row]));
    StepKeepsCommits(qs, s.queue, Insert(map[m.next := m.row]));
    var t := Moved(qs, settings, runsOn, s, m);
    forall id | id in s.mine
      ensures Terminal(t.queue.rows[id])
    {
      assert id !in LiveMine(s);
    }
    assert Between(Kept(settings, runsOn), m.today + 1, m.today) == [];
    assert t.recorded == [] + SeenOfCurrent(settings, runsOn, t.progress.cursor);
  }

  ghost predicate CanMoveAll(qs: Q.Settings, settings: Settings, runsOn: RunsOn, s: System, ms: seq<Move>)
    requires Sensible(settings) && WellPlaced(s.progress)
    decreases |ms|
  {
    ms == [] ||
    (CanMove(qs, settings, runsOn, s, ms[0]) &&
     WellPlaced(Moved(qs, settings, runsOn, s, ms[0]).progress) &&
     CanMoveAll(qs, settings, runsOn, Moved(qs, settings, runsOn, s, ms[0]), ms[1..]))
  }

  ghost function MovedAll(qs: Q.Settings, settings: Settings, runsOn: RunsOn, s: System, ms: seq<Move>): System
    requires Sensible(settings) && WellPlaced(s.progress) && CanMoveAll(qs, settings, runsOn, s, ms)
    decreases |ms|
  {
    if ms == [] then s else MovedAll(qs, settings, runsOn, Moved(qs, settings, runsOn, s, ms[0]), ms[1..])
  }

  lemma MoveKeeps(qs: Q.Settings, settings: Settings, runsOn: RunsOn, s: System, m: Move)
    requires Sensible(settings) && Holds(settings, runsOn, s)
    requires CanMove(qs, settings, runsOn, s, m)
    ensures Holds(settings, runsOn, Moved(qs, settings, runsOn, s, m))
  {
    match m {
      case Elsewhere(_) => ElsewhereKeeps(qs, settings, runsOn, s, m);
      case Handle(_, _, _, _) =>
        HandleKeepsFaith(qs, settings, runsOn, s, m);
        HandleKeepsRows(qs, settings, runsOn, s, m);
      case Start(_, _, _, _) => StartKeeps(qs, settings, runsOn, s, m);
    }
  }

  /** Crashes, rollbacks, deferrals and reaps of dead workers anywhere: the runs recorded are those of
      the finished windows and pages, and exactly one runs row is live while the crawl runs, unless the
      last one was dead-lettered. */
  lemma {:induction false} CrawlIsFaithful(qs: Q.Settings, settings: Settings, runsOn: RunsOn, s: System, ms: seq<Move>)
    requires Sensible(settings) && Holds(settings, runsOn, s)
    requires CanMoveAll(qs, settings, runsOn, s, ms)
    ensures var t := MovedAll(qs, settings, runsOn, s, ms);
            && Holds(settings, runsOn, t)
            && LiveMine(t) == ExpectedLive(t)
    decreases |ms|
  {
    if ms == [] {
      LiveRowIsTheLatest(s);
    } else {
      MoveKeeps(qs, settings, runsOn, s, ms[0]);
      CrawlIsFaithful(qs, settings, runsOn, Moved(qs, settings, runsOn, s, ms[0]), ms[1..]);
    }
  }

  // ---------------------------------------------------------------------------------------------
  // A crawl that finished
  // ---------------------------------------------------------------------------------------------

  /** Every page is handled under a floor between `bottom` and `top`, and no crawl starts below `bottom`.
      The handler computes the floor from the day it runs on, so it moves while a crawl is under way. */
  ghost predicate FloorsWithin(settings: Settings, ms: seq<Move>, bottom: int, top: int) {
    forall m :: m in ms ==>
      && (m.Handle? ==> bottom <= m.floor <= top)
      && (m.Start? ==> bottom <= FloorOf(settings, m.observed, m.today))
  }

  /** The crawl has not gone below `bottom`, and if it finished it has gone down to `top`. */
  ghost predicate Reached(p: Progress, bottom: int, top: int) {
    && Uncovered(p.today, p.finished) >= bottom - 1
    && (p.cursor.status.Running? ==> p.cursor.window.Some? && p.cursor.window.value.start >= bottom)
    && (p.cursor.status.Finished? ==> Uncovered(p.today, p.finished) < top)
  }

  lemma AdvanceStaysWithin(settings: Settings, p: Progress, floor: int, answer: Answer, bottom: int, top: int)
    requires Sensible(settings) && WellPlaced(p) && Reached(p, bottom, top) && bottom <= floor <= top
    ensures Reached(Advance(settings, p, floor, answer), bottom, top)
  {
    assert p.finished + [] == p.finished;
  }

  lemma MoveStaysWithin(qs: Q.Settings, settings: Settings, runsOn: RunsOn, s: System, m: Move, bottom: int, top: int)
    requires Sensible(settings) && Holds(settings, runsOn, s) && CanMove(qs, settings, runsOn, s, m)
    requires Reached(s.progress, bottom, top) && FloorsWithin(settings, [m], bottom, top)
    ensures Reached(Moved(qs, settings, runsOn, s, m).progress, bottom, top)
  {
    assert m in [m];
    if m.Handle? {
      assert s.progress.finished + [] == s.progress.finished;
      if s.progress.cursor.status.Running? {
        AdvanceStaysWithin(settings, s.progress, m.floor, AnswerTo(settings, runsOn, s.progress), bottom, top);
      }
    }
  }

  lemma {:induction false} MovesStayWithin(
    qs: Q.Settings, settings: Settings, runsOn: RunsOn, s: System, ms: seq<Move>, bottom: int, top: int)
    requires Sensible(settings) && Holds(settings, runsOn, s)
    requires CanMoveAll(qs, settings, runsOn, s, ms)
    requires Reached(s.progress, bottom, top) && FloorsWithin(settings, ms, bottom, top)
    ensures Reached(MovedAll(qs, settings, runsOn, s, ms).progress, bottom, top)
    decreases |ms|
  {
    if ms != [] {
      assert ms[0] in ms && forall m :: m in ms[1..] ==> m in ms;
      assert FloorsWithin(settings, [ms[0]], bottom, top) && FloorsWithin(settings, ms[1..], bottom, top);
      MoveStaysWithin(qs, settings, runsOn, s, ms[0], bottom, top);
      MoveKeeps(qs, settings, runsOn, s, ms[0]);
      MovesStayWithin(qs, settings, runsOn, Moved(qs, settings, runsOn, s, ms[0]), ms[1..], bottom, top);
    }
  }

  /** The runs of a finished crawl: those within reach of the days from `lo` on, where `lo` is no later
      than the latest floor and no earlier than the earliest. */
  ghost predicate Complete(
    settings: Settings, runsOn: RunsOn, today: int, recorded: seq<Run>, lo: int, bottom: int, top: int)
  {
    && bottom <= lo <= top
    && recorded == Between(Kept(settings, runsOn), lo, today)
    && Between(Kept(settings, runsOn), top, today) <= recorded
  }

  /** When the cursor reads done, however the floor moved between pages: every run within reach from the
      latest floor to the start day has been recorded exactly once, older ones only down to the earliest
      floor, and each attempt of each recorded run has exactly one jobs row. */
  lemma FinishedCrawlIsComplete(
    qs: Q.Settings, settings: Settings, runsOn: RunsOn, s: System, ms: seq<Move>, bottom: int, top: int,
    id: int, attempt: int) returns (lo: int)
    requires Sensible(settings) && Holds(settings, runsOn, s)
    requires CanMoveAll(qs, settings, runsOn, s, ms)
    requires Reached(s.progress, bottom, top) && FloorsWithin(settings, ms, bottom, top)
    requires MovedAll(qs, settings, runsOn, s, ms).progress.cursor.status.Finished?
    ensures var t := MovedAll(qs, settings, runsOn, s, ms);
            && Complete(settings, runsOn, t.progress.today, t.recorded, lo, bottom, top)
            && (DistinctRuns(t.recorded) ==>
                  multiset(t.jobsRows)[(id, attempt)] == if HasAttempt(t.recorded, id, attempt) then 1 else 0)
  {
    CrawlIsFaithful(qs, settings, runsOn, s, ms);
    MovesStayWithin(qs, settings, runsOn, s, ms, bottom, top);
    lo := FinishedIsComplete(settings, runsOn, MovedAll(qs, settings, runsOn, s, ms), bottom, top, id, attempt);
  }

  lemma FinishedIsComplete(
    settings: Settings, runsOn: RunsOn, t: System, bottom: int, top: int, id: int, attempt: int) returns (lo: int)
    requires Holds(settings, runsOn, t) && Reached(t.progress, bottom, top) && t.progress.cursor.status.Finished?
    ensures Complete(settings, runsOn, t.progress.today, t.recorded, lo, bottom, top)
    ensures DistinctRuns(t.recorded) ==>
              multiset(t.jobsRows)[(id, attempt)] == if HasAttempt(t.recorded, id, attempt) then 1 else 0
  {
    lo := Uncovered(t.progress.today, t.progress.finished) + 1;
    FromTheTop(Kept(settings, runsOn), lo, top, t.progress.today);
    assert t.recorded == Between(Kept(settings, runsOn), lo, t.progress.today) + [];
    if DistinctRuns(t.recorded) {
      EachAttemptOnce(t.recorded, id, attempt);
    }
  }

  lemma FromTheTop(runsOn: RunsOn, lo: int, top: int, today: int)
    requires lo <= top
    ensures Between(runsOn, top, today) <= Between(runsOn, lo, today)
  {
    if top <= today + 1 {
      BetweenInTwo(runsOn, lo, top, today);
    }
  }

  /** With one floor throughout and no day over the cap, what is recorded is the history itself. */
  lemma FixedFloorCrawlIsTheHistory(
    qs: Q.Settings, settings: Settings, runsOn: RunsOn, s: System, ms: seq<Move>, floor: int, id: int, attempt: int)
    requires Sensible(settings) && Holds(settings, runsOn, s)
    requires CanMoveAll(qs, settings, runsOn, s, ms)
    requires Reached(s.progress, floor, floor) && FloorsWithin(settings, ms, floor, floor)
    requires MovedAll(qs, settings, runsOn, s, ms).progress.cursor.status.Finished?
    requires forall day :: |runsOn(day)| <= settings.resultCap
    requires DistinctRuns(Between(runsOn, floor, MovedAll(qs, settings, runsOn, s, ms).progress.today))
    ensures var t := MovedAll(qs, settings, runsOn, s, ms);
            var history := Between(runsOn, floor, t.progress.today);
            && t.recorded == history
            && multiset(t.jobsRows)[(id, attempt)] == if HasAttempt(history, id, attempt) then 1 else 0
  {
    var t := MovedAll(qs, settings, runsOn, s, ms);
    NoDayOverCapKeepsAll(settings, runsOn, floor, t.progress.today);
    var lo := FinishedCrawlIsComplete(qs, settings, runsOn, s, ms, floor, floor, id, attempt);
  }

  /** Every page and every start happens on one day, under the floor the settings give that day. */
  ghost predicate WithinTheDay(settings: Settings, ms: seq<Move>, observed: bool, today: int) {
    forall m :: m in ms ==>
      && (m.Handle? ==> IsOldest(settings, observed, today, m.floor))
      && (m.Start? ==> m.today == today && m.observed == observed)
  }

  lemma {:induction false} DayStays(
    qs: Q.Settings, settings: Settings, runsOn: RunsOn, s: System, ms: seq<Move>, observed: bool, today: int)
    requires Sensible(settings) && Holds(settings, runsOn, s) && CanMoveAll(qs, settings, runsOn, s, ms)
    requires WithinTheDay(settings, ms, observed, today) && s.progress.today == today
    ensures MovedAll(qs, settings, runsOn, s, ms).progress.today == today
    decreases |ms|
  {
    if ms != [] {
      assert ms[0] in ms && forall m :: m in ms[1..] ==> m in ms;
      MoveKeeps(qs, settings, runsOn, s, ms[0]);
      DayStays(qs, settings, runsOn, Moved(qs, settings, runsOn, s, ms[0]), ms[1..], observed, today);
    }
  }

  lemma FloorIsTheSettings(settings: Settings, ms: seq<Move>, observed: bool, today: int, oldest: int)
    requires WithinTheDay(settings, ms, observed, today) && IsOldest(settings, observed, today, oldest)
    ensures FloorsWithin(settings, ms, oldest, oldest)
  {
  }

  /** A crawl begun and finished on one day, whatever failed or was deferred in between, has recorded the
      configured number of days: an installed repository's, or an observed one's. */
  lemma ConfiguredHistoryIsCrawled(
    qs: Q.Settings, settings: Settings, runsOn: RunsOn, s: System, ms: seq<Move>, observed: bool, today: int,
    id: int, attempt: int)
    requires Sensible(settings) && Holds(settings, runsOn, s) && CanMoveAll(qs, settings, runsOn, s, ms)
    requires WithinTheDay(settings, ms, observed, today)
    requires s.progress == Progress(today, Cursor(None, None, NotStarted), [])
    requires MovedAll(qs, settings, runsOn, s, ms).progress.cursor.status.Finished?
    requires forall day :: |runsOn(day)| <= settings.resultCap
    requires DistinctRuns(Between(runsOn, today - settings.observedDays + 1, today)) || !observed
    requires DistinctRuns(Between(runsOn, today - settings.installedDays + 1, today)) || observed
    ensures var t := MovedAll(qs, settings, runsOn, s, ms);
            var history := if observed then Between(runsOn, today - settings.observedDays + 1, today)
                           else Between(runsOn, today - settings.installedDays + 1, today);
            && t.recorded == history
            && multiset(t.jobsRows)[(id, attempt)] == if HasAttempt(history, id, attempt) then 1 else 0
  {
    hide Holds, Between, HasAttempt, DistinctRuns, WithinTheDay, FloorsWithin, MovedAll, CanMoveAll;
    var oldest := today - (if observed then settings.observedDays else settings.installedDays) + 1;
    DayStays(qs, settings, runsOn, s, ms, observed, today);
    FloorIsTheSettings(settings, ms, observed, today, oldest);
    FixedFloorCrawlIsTheHistory(qs, settings, runsOn, s, ms, oldest, id, attempt);
  }

  /** A repository whose crawl has not been started, on any queue that is in order. */
  lemma UnstartedHolds(settings: Settings, runsOn: RunsOn, queue: Sys, today: int, floor: int)
    requires Owned(queue) && CommittedOnce(queue) && floor <= today + 1
    ensures var s := System(queue, Progress(today, Cursor(None, None, NotStarted), []), [], [], {}, 0);
            Holds(settings, runsOn, s) && forall top :: Reached(s.progress, floor, top)
  {
    assert Between(Kept(settings, runsOn), today + 1, today) == [];
  }
}
