/**
  What the crawl guarantees: its windows partition the days it covered, it ends whatever GitHub
  answers, and for a fixed history it records every run of the covered days exactly once.
 */
module Crawl {
  import opened Wrappers
  import opened Backfill

  // ---------------------------------------------------------------------------------------------
  // Windows partition the days, for any answers and any floors
  // ---------------------------------------------------------------------------------------------

  /** A crawl in progress: the day it started from, the cursor, and the windows finished so far. */
  datatype Progress = Progress(today: int, cursor: Cursor, finished: seq<Window>)

  function Begin(settings: Settings, today: int, days: int): Progress {
    Progress(today, Cursor(Some(FirstWindow(today, days, settings.windowDays)), Some(1), Running), [])
  }

  function Advance(settings: Settings, p: Progress, floor: int, answer: Answer): Progress {
    var r := HandlePage(settings, p.cursor, floor, answer);
    Progress(p.today, r.cursor, p.finished + if r.finished.Some? then [r.finished.value] else [])
  }

  /** The newest day the finished windows leave uncovered. */
  function Uncovered(today: int, finished: seq<Window>): int {
    if finished == [] then today else finished[|finished| - 1].start - 1
  }

  ghost predicate Adjoining(today: int, finished: seq<Window>) {
    forall i :: 0 <= i < |finished| ==>
      && finished[i].start <= finished[i].end
      && finished[i].end == Uncovered(today, finished[..i])
  }

  /** The finished windows adjoin one another from today down, and the current one adjoins them. */
  ghost predicate WellPlaced(p: Progress) {
    && Adjoining(p.today, p.finished)
    && (p.cursor.status.Running? ==>
          && p.cursor.window.Some? && p.cursor.page.Some? && p.cursor.page.value >= 1
          && p.cursor.window.value.start <= p.cursor.window.value.end == Uncovered(p.today, p.finished))
  }

  lemma AdvanceKeepsPlace(settings: Settings, p: Progress, floor: int, answer: Answer)
    requires Sensible(settings) && WellPlaced(p)
    ensures WellPlaced(Advance(settings, p, floor, answer))
    ensures Advance(settings, p, floor, answer).cursor.status.Finished? && p.cursor.status.Running? ==>
              Uncovered(p.today, Advance(settings, p, floor, answer).finished) < floor
  {
    var r := HandlePage(settings, p.cursor, floor, answer);
    if r.finished.Some? {
      var finished := p.finished + [r.finished.value];
      forall i | 0 <= i < |finished|
        ensures finished[i].start <= finished[i].end && finished[i].end == Uncovered(p.today, finished[..i])
      {
        if i < |p.finished| {
          assert finished[..i] == p.finished[..i];
        } else {
          assert finished[..i] == p.finished;
        }
      }
    } else {
      assert p.finished + [] == p.finished;
    }
  }

  lemma BeginIsPlaced(settings: Settings, today: int, days: int)
    requires Sensible(settings) && days >= 1
    ensures WellPlaced(Begin(settings, today, days))
  {
  }

  /** How many of the windows contain a day. */
  function Times(windows: seq<Window>, day: int): nat {
    if windows == [] then 0
    else Times(windows[..|windows| - 1], day) + if windows[|windows| - 1].Contains(day) then 1 else 0
  }

  lemma {:induction false} EachDayOnce(today: int, finished: seq<Window>, day: int)
    requires Adjoining(today, finished)
    ensures Uncovered(today, finished) <= today
    ensures Times(finished, day) == if Uncovered(today, finished) < day <= today then 1 else 0
  {
    if finished != [] {
      var before := finished[..|finished| - 1];
      assert forall i :: 0 <= i < |before| ==> before[..i] == finished[..i];
      assert before == finished[..|finished| - 1];
      EachDayOnce(today, before, day);
    }
  }

  /** The answers of one crawl and the floor at each of them. */
  datatype Input = Input(floor: int, answer: Answer)

  function AdvanceAll(settings: Settings, p: Progress, inputs: seq<Input>): Progress {
    if inputs == [] then p
    else
      var last := inputs[|inputs| - 1];
      Advance(settings, AdvanceAll(settings, p, inputs[..|inputs| - 1]), last.floor, last.answer)
  }

  /** Whatever GitHub answers and however the floor moves: a day between the oldest finished window and
      the start day lies in exactly one finished window, any other day in none; the current window
      starts where they end. A crawl that finishes has covered every day from its last floor on. */
  lemma {:induction false} WindowsPartitionTheDays(settings: Settings, today: int, days: int, inputs: seq<Input>)
    requires Sensible(settings) && days >= 1
    ensures var p := AdvanceAll(settings, Begin(settings, today, days), inputs);
            && WellPlaced(p) && p.today == today
            && (forall day :: Times(p.finished, day) == if Uncovered(today, p.finished) < day <= today then 1 else 0)
            && (p.cursor.status.Finished? ==>
                  && inputs != []
                  && exists i :: 0 <= i < |inputs| && Uncovered(today, p.finished) < inputs[i].floor)
  {
    var p := AdvanceAll(settings, Begin(settings, today, days), inputs);
    if inputs == [] {
      BeginIsPlaced(settings, today, days);
    } else {
      var before := inputs[..|inputs| - 1];
      var q := AdvanceAll(settings, Begin(settings, today, days), before);
      WindowsPartitionTheDays(settings, today, days, before);
      AdvanceKeepsPlace(settings, q, inputs[|inputs| - 1].floor, inputs[|inputs| - 1].answer);
      if p.cursor.status.Finished? {
        if q.cursor.status.Running? {
          assert Uncovered(today, p.finished) < inputs[|inputs| - 1].floor;
        } else {
          assert p.finished == q.finished + [] == q.finished;
          var i :| 0 <= i < |before| && Uncovered(today, q.finished) < before[i].floor;
          assert inputs[i] == before[i];
        }
      }
    }
    forall day {
      EachDayOnce(today, p.finished, day);
    }
  }

  ghost predicate AtOrAbove(p: Progress, floor: int) {
    && Uncovered(p.today, p.finished) >= floor - 1
    && (p.cursor.status.Running? ==> p.cursor.window.Some? && p.cursor.window.value.start >= floor)
    && (p.cursor.status.Finished? ==> Uncovered(p.today, p.finished) == floor - 1)
  }

  lemma AdvanceStaysAbove(settings: Settings, p: Progress, floor: int, answer: Answer)
    requires Sensible(settings) && WellPlaced(p) && AtOrAbove(p, floor)
    ensures AtOrAbove(Advance(settings, p, floor, answer), floor)
  {
    assert p.finished + [] == p.finished;
  }

  /** With one floor throughout, the crawl never reaches below it, and finishes exactly at it. */
  lemma {:induction false} FixedFloorIsExact(settings: Settings, today: int, days: int, inputs: seq<Input>, floor: int)
    requires Sensible(settings) && days >= 1 && floor <= today - (days - 1)
    requires forall i :: 0 <= i < |inputs| ==> inputs[i].floor == floor
    ensures AtOrAbove(AdvanceAll(settings, Begin(settings, today, days), inputs), floor)
  {
    if inputs != [] {
      var before := inputs[..|inputs| - 1];
      FixedFloorIsExact(settings, today, days, before, floor);
      WindowsPartitionTheDays(settings, today, days, before);
      AdvanceStaysAbove(settings, AdvanceAll(settings, Begin(settings, today, days), before), floor,
        inputs[|inputs| - 1].answer);
    }
  }

  // ---------------------------------------------------------------------------------------------
  // Termination, for every sequence of answers
  // ---------------------------------------------------------------------------------------------

  /** Pages the cap still allows in the current window. */
  function PagesLeft(settings: Settings, page: int): int {
    if page * settings.pageSize < settings.resultCap then settings.resultCap - page * settings.pageSize else 0
  }

  /** Days still to visit, then the width of the window, then the results left under the cap. */
  function Days(p: Progress, floor: int): int {
    if p.cursor.status.Running? && p.cursor.window.Some? then Max(p.cursor.window.value.end - floor + 2, 1) else 0
  }

  function Width(p: Progress): int {
    if p.cursor.window.Some? then p.cursor.window.value.Span() else 0
  }

  function Left(settings: Settings, p: Progress): int {
    PagesLeft(settings, PageOf(p.cursor))
  }

  /** Every page of a running crawl lowers the measure lexicographically, also when the floor has moved
      forward meanwhile and the totals have changed. */
  lemma PageLowersMeasure(settings: Settings, p: Progress, floor: int, later: int, answer: Answer)
    requires Sensible(settings) && WellPlaced(p) && p.cursor.status.Running? && later >= floor
    ensures var q := Advance(settings, p, later, answer);
            || Days(q, later) < Days(p, floor)
            || (Days(q, later) <= Days(p, floor) && 0 <= Width(q) < Width(p))
            || (Days(q, later) <= Days(p, floor) && Width(q) == Width(p) && 0 <= Left(settings, q) < Left(settings, p))
  {
    var page := PageOf(p.cursor);
    assert (page + 1) * settings.pageSize == page * settings.pageSize + settings.pageSize;
  }

  /** For every unending supply of answers, with a floor that never moves back, the crawl stops. */
  lemma {:induction false} CrawlStops(
    settings: Settings, p: Progress, inputs: nat -> Input, n: nat) returns (k: nat)
    requires Sensible(settings) && WellPlaced(p)
    requires forall i: nat, j: nat :: i <= j ==> inputs(i).floor <= inputs(j).floor
    ensures k >= n && !After(settings, p, inputs, n, k).cursor.status.Running?
    decreases Days(p, inputs(n).floor), Width(p), Left(settings, p)
  {
    if !p.cursor.status.Running? {
      k := n;
    } else {
      var q := Advance(settings, p, inputs(n).floor, inputs(n).answer);
      AdvanceKeepsPlace(settings, p, inputs(n).floor, inputs(n).answer);
      PageLowersMeasure(settings, p, inputs(n).floor, inputs(n).floor, inputs(n).answer);
      assert inputs(n).floor <= inputs(n + 1).floor;
      k := CrawlStops(settings, q, inputs, n + 1);
    }
  }

  /** The crawl after it was given the answers n, n + 1, ..., k - 1. */
  function After(settings: Settings, p: Progress, inputs: nat -> Input, n: nat, k: nat): Progress
    decreases k - n
  {
    if n >= k then p else After(settings, Advance(settings, p, inputs(n).floor, inputs(n).answer), inputs, n + 1, k)
  }
}
