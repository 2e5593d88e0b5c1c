/**
  The crawl of a repository's history: a cursor that walks date windows backwards, halves a window
  that overflows the listing's cap, and pages within the window. One handled queue row is one page.
  Days are numbered.
 */
module Backfill {
  import opened Wrappers

  datatype Settings = Settings(
    installedDays: int, observedDays: int, windowDays: int, pageSize: int, resultCap: int)

  ghost predicate Sensible(settings: Settings) {
    && settings.installedDays >= 1 && settings.observedDays >= 1 && settings.windowDays >= 1
    && settings.pageSize >= 1 && settings.resultCap >= 1
  }

  /** Inclusive at both ends. */
  datatype Window = Window(start: int, end: int) {
    function Span(): int {
      end - start
    }

    predicate Contains(day: int) {
      start <= day <= end
    }

    /** The newest half. */
    function Halved(): Window {
      Window(end - Span() / 2, end)
    }
  }

  function Max(a: int, b: int): int {
    if a >= b then a else b
  }

  function Min(a: int, b: int): int {
    if a <= b then a else b
  }

  function FirstWindow(today: int, days: int, windowDays: int): Window {
    Window(Max(today - (days - 1), today - (windowDays - 1)), today)
  }

  function NextWindow(current: Window, floor: int, windowDays: int): Option<Window> {
    var end := current.start - 1;
    if end < floor then None else Some(Window(Max(floor, end - (windowDays - 1)), end))
  }

  function BackfillDays(settings: Settings, observed: bool): int {
    if observed then settings.observedDays else settings.installedDays
  }

  function FloorOf(settings: Settings, observed: bool, today: int): int {
    today - (BackfillDays(settings, observed) - 1)
  }

  datatype CrawlStatus = NotStarted | Running | Finished | Unreadable

  datatype Cursor = Cursor(window: Option<Window>, page: Option<int>, status: CrawlStatus)

  // ---------------------------------------------------------------------------------------------
  // What GitHub answers
  // ---------------------------------------------------------------------------------------------

  datatype Run = Run(id: Option<int>, latestAttempt: Option<int>)

  /** One page of the runs listing, or the news that the repository is gone. Any other failure raises
      or defers, and is a step of the queue rather than of the cursor. */
  datatype Answer = NotFound | Listing(total: int, runs: seq<Run>)

  function Recordable(runs: seq<Run>): seq<Run> {
    if runs == [] then []
    else (if Truthy(runs[0].id) then [runs[0]] else []) + Recordable(runs[1..])
  }

  function LatestAttempt(run: Run): int {
    if Truthy(run.latestAttempt) then run.latestAttempt.value else 1
  }

  /** The jobs rows of one run: its attempts, from 1 to the latest. */
  function AttemptRows(id: int, latest: int): seq<(int, int)> {
    if latest < 1 then [] else AttemptRows(id, latest - 1) + [(id, latest)]
  }

  function JobsRows(runs: seq<Run>): seq<(int, int)> {
    if runs == [] then []
    else
      (if Truthy(runs[0].id) then AttemptRows(runs[0].id.value, LatestAttempt(runs[0])) else []) + JobsRows(runs[1..])
  }

  // ---------------------------------------------------------------------------------------------
  // One page
  // ---------------------------------------------------------------------------------------------

  /** What handling one runs row does: the cursor it leaves, the runs it records, the window it
      finishes, and whether it enqueues the next runs row. */
  datatype PageResult = PageResult(cursor: Cursor, recorded: seq<Run>, finished: Option<Window>, enqueue: bool)

  function PageOf(cursor: Cursor): int {
    if Truthy(cursor.page) then cursor.page.value else 1
  }

  function HandlePage(settings: Settings, cursor: Cursor, floor: int, answer: Answer): PageResult {
    if !cursor.status.Running? || cursor.window.None? then PageResult(cursor, [], None, false)
    else if answer.NotFound? then PageResult(Cursor(None, None, Unreadable), [], None, false)
    else
      var window, page := cursor.window.value, PageOf(cursor);
      if page == 1 && answer.total > settings.resultCap && window.Span() >= 1 then
        PageResult(Cursor(Some(window.Halved()), Some(1), Running), [], None, true)
      else
        var reachable := Min(answer.total, settings.resultCap);
        if page * settings.pageSize < reachable && |answer.runs| > 0 then
          PageResult(Cursor(Some(window), Some(page + 1), Running), answer.runs, None, true)
        else
          var following := NextWindow(window, floor, settings.windowDays);
          if following.None? then PageResult(Cursor(None, None, Finished), answer.runs, Some(window), false)
          else PageResult(Cursor(following, Some(1), Running), answer.runs, Some(window), true)
  }

  // ---------------------------------------------------------------------------------------------
  // One page, in days and settings
  // ---------------------------------------------------------------------------------------------

  /** The oldest day there is to crawl, for an observed repository and for an installed one. */
  ghost predicate IsOldest(settings: Settings, observed: bool, today: int, day: int) {
    && (observed ==> day == today - (settings.observedDays - 1))
    && (!observed ==> day == today - (settings.installedDays - 1))
  }

  ghost predicate RunsOver(cursor: Cursor, start: int, end: int) {
    cursor.status == Running && cursor.window == Some(Window(start, end))
  }

  /** A number as given, or one if none or zero is given. */
  ghost predicate IsGivenOrOne(number: int, field: Option<int>) {
    number == if field == None || field == Some(0) then 1 else field.value
  }

  /** A first page that overflows: the window shrinks to its newest days, at least half of them, rounded up,
      and no page of it is recorded. */
  ghost predicate Overflows(settings: Settings, start: int, end: int, page: int, answer: Answer) {
    answer.Listing? && page == 1 && answer.total > settings.resultCap && start < end
  }

  ghost predicate ShrinksTo(start: int, end: int, cursor: Cursor) {
    && cursor.status == Running && cursor.page == Some(1) && cursor.window.Some? && cursor.window.value.end == end
    && start < cursor.window.value.start <= end
    && 0 <= (end - start) - 2 * (end - cursor.window.value.start) <= 1
  }

  /** There is another page within the cap, and this one was not empty. */
  ghost predicate GoesOn(settings: Settings, page: int, answer: Answer) {
    && answer.Listing? && |answer.runs| > 0
    && page * settings.pageSize < answer.total && page * settings.pageSize < settings.resultCap
  }

  /** The window before: it ends the day before this one starts and is as wide as configured, unless the
      oldest day cuts it short. */
  ghost predicate StepsBack(settings: Settings, start: int, oldest: int, cursor: Cursor) {
    && cursor.status == Running && cursor.page == Some(1) && cursor.window.Some?
    && cursor.window.value.end == start - 1 && oldest <= cursor.window.value.start
    && (cursor.window.value.start == oldest || cursor.window.value.start == start - settings.windowDays)
    && (settings.windowDays >= 1 ==> start - settings.windowDays <= cursor.window.value.start <= start - 1)
  }

  /** What a page does to the cursor: unreadable, narrower, next page, an older window, or done, and done only
      when the window handled starts at the oldest day or before it. */
  ghost predicate PageMoves(
    settings: Settings, start: int, end: int, page: int, oldest: int, answer: Answer, r: PageResult)
  {
    if answer.NotFound? then
      r.cursor == Cursor(None, None, Unreadable) && r.recorded == [] && r.finished == None && !r.enqueue
    else if Overflows(settings, start, end, page, answer) then
      ShrinksTo(start, end, r.cursor) && r.recorded == [] && r.finished == None && r.enqueue
    else
      && r.recorded == answer.runs
      && if GoesOn(settings, page, answer) then
           r.cursor == Cursor(Some(Window(start, end)), Some(page + 1), Running) && r.finished == None && r.enqueue
         else
           && r.finished == Some(Window(start, end))
           && if start <= oldest then r.cursor == Cursor(None, None, Finished) && !r.enqueue
              else StepsBack(settings, start, oldest, r.cursor) && r.enqueue
  }

  /** One page of a running crawl, handled on some day, in the fields of the cursor and of the settings. */
  lemma PageInFull(
    settings: Settings, observed: bool, today: int, cursor: Cursor, answer: Answer, start: int, end: int, page: int,
    oldest: int)
    requires RunsOver(cursor, start, end) && IsGivenOrOne(page, cursor.page)
    requires IsOldest(settings, observed, today, oldest)
    ensures PageMoves(settings, start, end, page, oldest, answer,
                      HandlePage(settings, cursor, FloorOf(settings, observed, today), answer))
  {
    assert settings.windowDays >= 1 ==> start - 1 - (settings.windowDays - 1) == start - settings.windowDays;
  }

  /** Whatever window and page the cursor reads. */
  ghost predicate PageMovesOn(
    settings: Settings, observed: bool, today: int, cursor: Cursor, answer: Answer, r: PageResult)
  {
    forall start, end, page, oldest ::
      RunsOver(cursor, start, end) && IsGivenOrOne(page, cursor.page) && IsOldest(settings, observed, today, oldest) ==>
        PageMoves(settings, start, end, page, oldest, answer, r)
  }

  lemma PageMovesOnInFull(settings: Settings, observed: bool, today: int, cursor: Cursor, answer: Answer)
    ensures PageMovesOn(settings, observed, today, cursor, answer,
                        HandlePage(settings, cursor, FloorOf(settings, observed, today), answer))
  {
    hide PageMoves, HandlePage, FloorOf;
    forall start, end, page, oldest |
      RunsOver(cursor, start, end) && IsGivenOrOne(page, cursor.page) && IsOldest(settings, observed, today, oldest)
      ensures PageMoves(settings, start, end, page, oldest, answer,
                        HandlePage(settings, cursor, FloorOf(settings, observed, today), answer))
    {
      PageInFull(settings, observed, today, cursor, answer, start, end, page, oldest);
    }
  }

  /** A crawl that does not run is left alone. */
  lemma IdleStays(settings: Settings, cursor: Cursor, floor: int, answer: Answer)
    requires cursor.status != Running || cursor.window == None
    ensures HandlePage(settings, cursor, floor, answer) == PageResult(cursor, [], None, false)
  {
  }

  /** The newest window: it ends today and reaches back as many days as a window has, or as were asked for,
      or else as the repository is crawled for. */
  ghost predicate IsNewest(
    settings: Settings, observed: bool, today: int, days: Option<int>, window: Option<Window>)
  {
    && window.Some? && window.value.end == today
    && forall oldest :: (if days != None && days != Some(0) then oldest == today - (days.value - 1)
                         else IsOldest(settings, observed, today, oldest)) ==>
         window.value.start == if oldest >= today - (settings.windowDays - 1) then oldest
                               else today - (settings.windowDays - 1)
  }

  // ---------------------------------------------------------------------------------------------
  // The repository row and the tables a page writes, updated in place
  // ---------------------------------------------------------------------------------------------

  class Repository {
    const settings: Settings
    var observed: bool
    var windowStart: Option<int>
    var windowEnd: Option<int>
    var page: Option<int>
    var status: CrawlStatus
    var recorded: seq<Run>
    var jobsRows: seq<(int, int)>
    var runsRows: nat

    constructor (settings: Settings, observed: bool)
      ensures this.settings == settings && this.observed == observed
      ensures Valid() && CursorNow() == Cursor(None, None, NotStarted)
      ensures recorded == [] && jobsRows == [] && runsRows == 0
    {
      this.settings, this.observed := settings, observed;
      windowStart, windowEnd, page, status := None, None, None, NotStarted;
      recorded, jobsRows, runsRows := [], [], 0;
    }

    ghost predicate Valid()
      reads this
    {
      windowStart.Some? <==> windowEnd.Some?
    }

    function CursorNow(): Cursor
      reads this
    {
      Cursor(
        if windowStart.Some? && windowEnd.Some? then Some(Window(windowStart.value, windowEnd.value)) else None,
        page, status)
    }

    method SaveCursor(window: Option<Window>, page: Option<int>, status: CrawlStatus)
      modifies this`windowStart, this`windowEnd, this`page, this`status
      ensures Valid() && CursorNow() == Cursor(window, page, status)
    {
      windowStart := if window.Some? then Some(window.value.start) else None;
      windowEnd := if window.Some? then Some(window.value.end) else None;
      this.page := page;
      this.status := status;
    }

    /** `pending` is what the query for a waiting runs row of this repository found. The days asked for
        shape the first window only. */
    method StartBackfill(today: int, days: Option<int>, pending: bool) returns (queued: bool)
      requires Valid()
      modifies this
      ensures Valid() && queued == !pending
      ensures recorded == old(recorded) && jobsRows == old(jobsRows) && observed == old(observed)
      ensures pending ==> CursorNow() == old(CursorNow()) && runsRows == old(runsRows)
      ensures !pending ==>
                var back := if Truthy(days) then days.value else BackfillDays(settings, observed);
                && runsRows == old(runsRows) + 1
                && CursorNow() == Cursor(Some(FirstWindow(today, back, settings.windowDays)), Some(1), Running)
      ensures !pending ==>
                && status == Running && page == Some(1) && IsNewest(settings, observed, today, days, CursorNow().window)
    {
      if pending {
        return false;
      }
      var span := if Truthy(days) then days.value else BackfillDays(settings, observed);
      SaveCursor(Some(FirstWindow(today, span, settings.windowDays)), Some(1), Running);
      runsRows := runsRows + 1;
      queued := true;
    }

    method RecordRun(run: Run) returns (queued: nat)
      modifies this`recorded, this`jobsRows
      ensures recorded == old(recorded) + Recordable([run]) && jobsRows == old(jobsRows) + JobsRows([run])
      ensures queued == |JobsRows([run])|
      ensures run.id == None || run.id == Some(0) ==>
                recorded == old(recorded) && jobsRows == old(jobsRows) && queued == 0
      ensures run.id != None && run.id != Some(0) ==>
                recorded == old(recorded) + [run] && QueuesAttempts(old(jobsRows), jobsRows, run, queued)
    {
      queued := 0;
      assert [run][1..] == [];
      assert Recordable([run]) == if Truthy(run.id) then [run] else [];
      if Truthy(run.id) {
        recorded := recorded + [run];
        var latest := LatestAttempt(run);
        var attempt := 1;
        while attempt <= latest
          invariant 1 <= attempt && (attempt <= latest + 1 || attempt == 1)
          invariant recorded == old(recorded) + [run]
          invariant jobsRows == old(jobsRows) + AttemptRows(run.id.value, attempt - 1)
          invariant queued == |AttemptRows(run.id.value, attempt - 1)|
        {
          jobsRows := jobsRows + [(run.id.value, attempt)];
          queued := queued + 1;
          attempt := attempt + 1;
        }
        assert AttemptRows(run.id.value, attempt - 1) == AttemptRows(run.id.value, latest);
        assert JobsRows([run]) == AttemptRows(run.id.value, latest) + JobsRows([]);
        AttemptsInOrder(run.id.value, latest);
      } else {
        assert recorded == old(recorded) + [] && jobsRows == old(jobsRows) + [];
      }
    }

    method RecordRuns(runs: seq<Run>)
      modifies this`recorded, this`jobsRows
      ensures recorded == old(recorded) + Recordable(runs) && jobsRows == old(jobsRows) + JobsRows(runs)
    {
      hide Recordable, JobsRows, QueuesAttempts;
      assert Recordable(runs[..0]) == [] && JobsRows(runs[..0]) == [] by { NoRunsNoRows(runs[..0]); }
      for i := 0 to |runs|
        invariant recorded == old(recorded) + Recordable(runs[..i])
        invariant jobsRows == old(jobsRows) + JobsRows(runs[..i])
      {
        var _ := RecordRun(runs[i]);
        assert runs[..i + 1] == runs[..i] + [runs[i]];
        RecordableOfConcat(runs[..i], [runs[i]]);
        JobsRowsOfConcat(runs[..i], [runs[i]]);
      }
      assert runs[..|runs|] == runs;
    }

    method HandleBackfillRuns(today: int, answer: Answer)
      requires Valid()
      modifies this
      ensures Valid() && observed == old(observed)
      ensures var r := HandlePage(settings, old(CursorNow()), FloorOf(settings, old(observed), today), answer);
              && CursorNow() == r.cursor
              && recorded == old(recorded) + Recordable(r.recorded)
              && jobsRows == old(jobsRows) + JobsRows(r.recorded)
              && runsRows == old(runsRows) + (if r.enqueue then 1 else 0)
              && PageMovesOn(settings, old(observed), today, old(CursorNow()), answer, r)
    {
      hide PageMovesOn;
      PageMovesOnInFull(settings, observed, today, CursorNow(), answer);
      if !status.Running? || windowEnd.None? {
        return;
      }
      var window := Window(windowStart.value, windowEnd.value);
      var current := if Truthy(page) then page.value else 1;
      var floor := FloorOf(settings, observed, today);
      if answer.NotFound? {
        SaveCursor(None, None, Unreadable);
        return;
      }
      if current == 1 && answer.total > settings.resultCap && window.Span() >= 1 {
        SaveCursor(Some(window.Halved()), Some(1), Running);
        runsRows := runsRows + 1;
        return;
      }
      RecordRuns(answer.runs);
      if current * settings.pageSize < Min(answer.total, settings.resultCap) && |answer.runs| > 0 {
        SaveCursor(Some(window), Some(current + 1), Running);
      } else {
        var following := NextWindow(window, floor, settings.windowDays);
        if following.None? {
          SaveCursor(None, None, Finished);
        } else {
          SaveCursor(following, Some(1), Running);
        }
      }
      if status.Running? {
        runsRows := runsRows + 1;
      }
    }
  }

  lemma NoRunsNoRows(runs: seq<Run>)
    requires runs == []
    ensures Recordable(runs) == [] && JobsRows(runs) == []
  {
  }

  /** One jobs row for each attempt from the first to the latest, which without a number is the first. */
  ghost predicate QueuesAttempts(before: seq<(int, int)>, after: seq<(int, int)>, run: Run, queued: nat)
    requires run.id.Some?
  {
    && before <= after && |after| == |before| + queued
    && (forall latest :: IsGivenOrOne(latest, run.latestAttempt) && latest >= 0 ==> queued == latest)
    && forall k :: |before| <= k < |after| ==> after[k] == (run.id.value, k - |before| + 1)
  }

  lemma {:induction false} AttemptsInOrder(id: int, latest: int)
    ensures latest >= 0 ==> |AttemptRows(id, latest)| == latest
    ensures forall k :: 0 <= k < |AttemptRows(id, latest)| ==> AttemptRows(id, latest)[k] == (id, k + 1)
  {
    if latest >= 1 {
      AttemptsInOrder(id, latest - 1);
    }
  }

  lemma {:induction false} RecordableOfConcat(a: seq<Run>, b: seq<Run>)
    ensures Recordable(a + b) == Recordable(a) + Recordable(b)
  {
    if a == [] {
      assert a + b == b;
    } else {
      RecordableOfConcat(a[1..], b);
      var head := if Truthy(a[0].id) then [a[0]] else [];
      assert (a + b)[0] == a[0] && (a + b)[1..] == a[1..] + b;
      assert Recordable(a + b) == head + Recordable(a[1..] + b);
      assert head + (Recordable(a[1..]) + Recordable(b)) == (head + Recordable(a[1..])) + Recordable(b);
    }
  }

  lemma {:induction false} JobsRowsOfConcat(a: seq<Run>, b: seq<Run>)
    ensures JobsRows(a + b) == JobsRows(a) + JobsRows(b)
  {
    if a == [] {
      assert a + b == b;
    } else {
      assert (a + b)[1..] == a[1..] + b;
      JobsRowsOfConcat(a[1..], b);
    }
  }
}
