/**
  The order of the leaderboard: two stable sorts, first by identity and then by rank, and a cut.
 */
module Ranking {
  import opened Wrappers
  import Names

  /** A board row. `repo` is empty on the board of one repository; `lower` is the interval's lower
      bound, absent when there is no interval. */
  datatype Row = Row(
    repo: string, name: string, workflowId: Option<int>, opportunities: int, flakes: int, lower: Option<real>)

  function RankKey(row: Row): real {
    if row.lower.Some? then row.lower.value else -1.0
  }

  /** The workflow as the identity sees it: none and zero are one value. */
  function WorkflowOrZero(row: Row): int {
    if Truthy(row.workflowId) then row.workflowId.value else 0
  }

  /** What a pass compares by. `Board` is the order the two passes are meant to give together. */
  datatype Order = ByIdentity | ByRank | Board

  predicate IdentityAtMost(a: Row, b: Row) {
    if a.repo != b.repo then Names.Less(a.repo, b.repo)
    else if a.name != b.name then Names.Less(a.name, b.name)
    else WorkflowOrZero(a) <= WorkflowOrZero(b)
  }

  /** Higher lower bound first, then more opportunities. */
  predicate RankAtLeast(a: Row, b: Row) {
    RankKey(a) > RankKey(b) || (RankKey(a) == RankKey(b) && a.opportunities >= b.opportunities)
  }

  predicate AtMost(order: Order, a: Row, b: Row) {
    match order
    case ByIdentity => IdentityAtMost(a, b)
    case ByRank => RankAtLeast(a, b)
    case Board => RankAtLeast(a, b) && (RankAtLeast(b, a) ==> IdentityAtMost(a, b))
  }

  predicate Ties(order: Order, a: Row, b: Row) {
    AtMost(order, a, b) && AtMost(order, b, a)
  }

  ghost predicate Sorted(order: Order, rows: seq<Row>) {
    forall i, j :: 0 <= i < j < |rows| ==> AtMost(order, rows[i], rows[j])
  }

  /** The rows that tie with `x`, in the order they stand. */
  function Peers(order: Order, x: Row, rows: seq<Row>): seq<Row> {
    if rows == [] then []
    else (if Ties(order, x, rows[0]) then [rows[0]] else []) + Peers(order, x, rows[1..])
  }

  /** A sort is stable when rows that tie keep the order they came in. */
  ghost predicate StablySorted(order: Order, before: seq<Row>, after: seq<Row>) {
    && Sorted(order, after)
    && multiset(after) == multiset(before)
    && forall x :: Peers(order, x, after) == Peers(order, x, before)
  }

  // ---------------------------------------------------------------------------------------------
  // The orders
  // ---------------------------------------------------------------------------------------------

  lemma AtMostIsTotal(order: Order, a: Row, b: Row)
    ensures AtMost(order, a, b) || AtMost(order, b, a)
    ensures AtMost(order, a, a)
  {
    Names.LessIsTotal(a.repo, b.repo);
    Names.LessIsTotal(a.name, b.name);
  }

  lemma IdentityIsTransitive(a: Row, b: Row, c: Row)
    requires IdentityAtMost(a, b) && IdentityAtMost(b, c)
    ensures IdentityAtMost(a, c)
  {
    Names.LessIsTotal(a.repo, b.repo);
    Names.LessIsTotal(a.name, b.name);
    if a.repo != b.repo && b.repo != c.repo {
      Names.LessIsTransitive(a.repo, b.repo, c.repo);
      Names.LessIsTotal(a.repo, c.repo);
    }
    if a.name != b.name && b.name != c.name && a.repo == b.repo == c.repo {
      Names.LessIsTransitive(a.name, b.name, c.name);
      Names.LessIsTotal(a.name, c.name);
    }
  }

  lemma AtMostIsTransitive(order: Order, a: Row, b: Row, c: Row)
    requires AtMost(order, a, b) && AtMost(order, b, c)
    ensures AtMost(order, a, c)
  {
    if order == ByIdentity || (order == Board && RankAtLeast(c, a)) {
      IdentityIsTransitive(a, b, c);
    }
  }

  // ---------------------------------------------------------------------------------------------
  // A stable sort
  // ---------------------------------------------------------------------------------------------

  function Inserted(order: Order, x: Row, rows: seq<Row>): seq<Row> {
    if rows == [] || AtMost(order, x, rows[0]) then [x] + rows else [rows[0]] + Inserted(order, x, rows[1..])
  }

  function StableSort(order: Order, rows: seq<Row>): seq<Row> {
    if rows == [] then [] else Inserted(order, rows[0], StableSort(order, rows[1..]))
  }

  lemma {:induction false} InsertedKeepsOrder(order: Order, x: Row, rows: seq<Row>)
    requires Sorted(order, rows)
    ensures Sorted(order, Inserted(order, x, rows))
    ensures multiset(Inserted(order, x, rows)) == multiset{x} + multiset(rows)
  {
    if rows == [] {
    } else if AtMost(order, x, rows[0]) {
      forall j | 0 <= j < |rows|
        ensures AtMost(order, x, rows[j])
      {
        if j > 0 {
          AtMostIsTransitive(order, x, rows[0], rows[j]);
        }
      }
    } else {
      InsertedKeepsOrder(order, x, rows[1..]);
      AtMostIsTotal(order, x, rows[0]);
      assert rows == [rows[0]] + rows[1..];
      var rest := Inserted(order, x, rows[1..]);
      forall j | 0 <= j < |rest|
        ensures AtMost(order, rows[0], rest[j])
      {
        assert rest[j] in multiset(rest);
        assert rest[j] == x || rest[j] in rows[1..];
      }
    }
  }

  lemma {:induction false} InsertedKeepsPeers(order: Order, x: Row, rows: seq<Row>, y: Row)
    requires Sorted(order, rows)
    ensures Peers(order, y, Inserted(order, x, rows)) == (if Ties(order, y, x) then [x] else []) + Peers(order, y, rows)
  {
    if rows == [] || AtMost(order, x, rows[0]) {
      assert ([x] + rows)[1..] == rows;
    } else {
      InsertedKeepsPeers(order, x, rows[1..], y);
      assert ([rows[0]] + Inserted(order, x, rows[1..]))[1..] == Inserted(order, x, rows[1..]);
      if Ties(order, y, x) && Ties(order, y, rows[0]) {
        AtMostIsTransitive(order, x, y, rows[0]);
        assert false;
      }
    }
  }

  lemma {:induction false} StableSortIsStable(order: Order, rows: seq<Row>)
    ensures StablySorted(order, rows, StableSort(order, rows))
  {
    if rows != [] {
      StableSortIsStable(order, rows[1..]);
      var rest := StableSort(order, rows[1..]);
      InsertedKeepsOrder(order, rows[0], rest);
      assert rows == [rows[0]] + rows[1..];
      forall y
        ensures Peers(order, y, Inserted(order, rows[0], rest)) == Peers(order, y, rows)
      {
        InsertedKeepsPeers(order, rows[0], rest, y);
      }
    }
  }

  // ---------------------------------------------------------------------------------------------
  // Two passes
  // ---------------------------------------------------------------------------------------------

  lemma {:induction false} PeersOfSorted(order: Order, within: Order, x: Row, rows: seq<Row>)
    requires Sorted(within, rows)
    ensures Sorted(within, Peers(order, x, rows))
    ensures forall y :: y in Peers(order, x, rows) ==> y in rows && Ties(order, x, y)
  {
    if rows != [] {
      PeersOfSorted(order, within, x, rows[1..]);
      assert forall y :: y in Peers(order, x, rows[1..]) ==> AtMost(within, rows[0], y);
    }
  }

  lemma {:induction false} PeersInOrder(order: Order, within: Order, x: Row, rows: seq<Row>, i: nat, j: nat)
    requires i < j < |rows| && Ties(order, x, rows[i]) && Ties(order, x, rows[j])
    requires Sorted(within, Peers(order, x, rows))
    ensures AtMost(within, rows[i], rows[j])
  {
    if i == 0 {
      FirstPeerFirst(order, within, x, rows, j);
    } else {
      RestOfPeers(order, within, x, rows);
      PeersInOrder(order, within, x, rows[1..], i - 1, j - 1);
    }
  }

  lemma FirstPeerFirst(order: Order, within: Order, x: Row, rows: seq<Row>, j: nat)
    requires 0 < j < |rows| && Ties(order, x, rows[0]) && Ties(order, x, rows[j])
    requires Sorted(within, Peers(order, x, rows))
    ensures AtMost(within, rows[0], rows[j])
  {
    var rest := Peers(order, x, rows[1..]);
    PeersHold(order, x, rows[1..], j - 1);
    assert rows[j] == rows[1..][j - 1] && rows[j] in rest;
    var k :| 0 <= k < |rest| && rest[k] == rows[j];
    assert Peers(order, x, rows) == [rows[0]] + rest;
    assert Peers(order, x, rows)[0] == rows[0] && Peers(order, x, rows)[k + 1] == rows[j];
  }

  lemma RestOfPeers(order: Order, within: Order, x: Row, rows: seq<Row>)
    requires rows != [] && Sorted(within, Peers(order, x, rows))
    ensures Sorted(within, Peers(order, x, rows[1..]))
  {
    var all, rest := Peers(order, x, rows), Peers(order, x, rows[1..]);
    var shift := |all| - |rest|;
    forall a, b | 0 <= a < b < |rest|
      ensures AtMost(within, rest[a], rest[b])
    {
      assert all[a + shift] == rest[a] && all[b + shift] == rest[b];
    }
  }

  lemma {:induction false} PeersHold(order: Order, x: Row, rows: seq<Row>, i: nat)
    requires i < |rows| && Ties(order, x, rows[i])
    ensures rows[i] in Peers(order, x, rows)
  {
    if i > 0 {
      PeersHold(order, x, rows[1..], i - 1);
    }
  }

  /** Whatever stable sort is used, identity first and rank second leaves the board in board order. */
  lemma TwoPassesGiveTheBoardOrder(rows: seq<Row>, byIdentity: seq<Row>, ranked: seq<Row>)
    requires StablySorted(ByIdentity, rows, byIdentity) && StablySorted(ByRank, byIdentity, ranked)
    ensures Sorted(Board, ranked) && multiset(ranked) == multiset(rows)
  {
    forall i, j | 0 <= i < j < |ranked|
      ensures AtMost(Board, ranked[i], ranked[j])
    {
      assert AtMost(ByRank, ranked[i], ranked[j]);
      if RankAtLeast(ranked[j], ranked[i]) {
        var x := ranked[i];
        AtMostIsTotal(ByRank, x, x);
        PeersOfSorted(ByRank, ByIdentity, x, byIdentity);
        assert Peers(ByRank, x, ranked) == Peers(ByRank, x, byIdentity);
        PeersInOrder(ByRank, ByIdentity, x, ranked, i, j);
      }
    }
  }

  lemma {:induction false} BoardPeers(x: Row, rows: seq<Row>)
    ensures Peers(Board, x, rows) == Peers(ByIdentity, x, Peers(ByRank, x, rows))
    ensures Peers(Board, x, rows) == Peers(ByRank, x, Peers(ByIdentity, x, rows))
  {
    if rows != [] {
      BoardPeers(x, rows[1..]);
      PeersOfOneMore(ByRank, x, rows);
      PeersOfOneMore(ByIdentity, x, rows);
      PeersOfOneMore(Board, x, rows);
      PeersOfOneMore(ByIdentity, x, [rows[0]] + Peers(ByRank, x, rows[1..]));
      PeersOfOneMore(ByRank, x, [rows[0]] + Peers(ByIdentity, x, rows[1..]));
      assert Ties(Board, x, rows[0]) <==> Ties(ByRank, x, rows[0]) && Ties(ByIdentity, x, rows[0]);
    }
  }

  lemma PeersOfOneMore(order: Order, x: Row, rows: seq<Row>)
    requires rows != []
    ensures Peers(order, x, rows)
         == if Ties(order, x, rows[0]) then [rows[0]] + Peers(order, x, rows[1..]) else Peers(order, x, rows[1..])
    ensures ([rows[0]] + rows[1..])[1..] == rows[1..]
  {
  }

  /** Rows that tie on everything stay in the order the query returned them. */
  lemma FullTiesKeepQueryOrder(rows: seq<Row>, byIdentity: seq<Row>, ranked: seq<Row>, x: Row)
    requires StablySorted(ByIdentity, rows, byIdentity) && StablySorted(ByRank, byIdentity, ranked)
    ensures Peers(Board, x, ranked) == Peers(Board, x, rows)
  {
    BoardPeers(x, ranked);
    BoardPeers(x, byIdentity);
    BoardPeers(x, rows);
  }

  // ---------------------------------------------------------------------------------------------
  // The board
  // ---------------------------------------------------------------------------------------------

  /** Python's `[:limit]`. */
  function Cut(rows: seq<Row>, limit: int): seq<Row> {
    if limit >= |rows| then rows
    else if limit >= 0 then rows[..limit]
    else if -limit >= |rows| then []
    else rows[..|rows| + limit]
  }

  function Leaderboard(rows: seq<Row>): seq<Row> {
    StableSort(ByRank, StableSort(ByIdentity, rows))
  }

  lemma LeaderboardIsStable(rows: seq<Row>)
    ensures StablySorted(ByIdentity, rows, StableSort(ByIdentity, rows))
    ensures StablySorted(ByRank, StableSort(ByIdentity, rows), Leaderboard(rows))
  {
    StableSortIsStable(ByIdentity, rows);
    StableSortIsStable(ByRank, StableSort(ByIdentity, rows));
  }

  /** A greater lower bound, where no bound is less than any. */
  predicate Higher(a: Row, b: Row) {
    a.lower.Some? && (b.lower.None? || a.lower.value > b.lower.value)
  }

  ghost predicate Earlier(a: string, b: string) {
    exists k :: Names.DifferAt(a, b, k)
  }

  predicate WorkflowAtMost(a: Row, b: Row) {
    || (a.workflowId.Some? && b.workflowId.Some? && a.workflowId.value <= b.workflowId.value)
    || (a.workflowId.None? && (b.workflowId.None? || b.workflowId.value >= 0))
    || (b.workflowId.None? && (a.workflowId.None? || a.workflowId.value <= 0))
  }

  /** The leaderboard, in the columns of its rows: greater lower bound first, then more opportunities, then
      repository and job name in string order, then workflow, none counting as zero. */
  ghost predicate Leads(a: Row, b: Row) {
    || Higher(a, b)
    || (a.lower == b.lower && a.opportunities > b.opportunities)
    || (a.lower == b.lower && a.opportunities == b.opportunities &&
        (Earlier(a.repo, b.repo) ||
         (a.repo == b.repo && (Earlier(a.name, b.name) || (a.name == b.name && WorkflowAtMost(a, b))))))
  }

  /** Bounds are never negative, as the bounds of an interval within [0, 1] are not. */
  predicate Bounded(row: Row) {
    row.lower.Some? ==> row.lower.value >= 0.0
  }

  lemma BoardOrderInColumns(a: Row, b: Row)
    requires Bounded(a) && Bounded(b)
    ensures AtMost(Board, a, b) <==> Leads(a, b)
  {
    hide Names.Less, Names.DifferAt;
    Names.LessIffFirstDifference(a.repo, b.repo);
    Names.LessIffFirstDifference(a.name, b.name);
    Names.LessIsTotal(a.repo, b.repo);
    Names.LessIsTotal(a.name, b.name);
  }

  lemma SortedLeads(board: seq<Row>, rows: seq<Row>)
    requires Sorted(Board, board) && (forall row :: row in board ==> row in rows)
    requires forall row :: row in rows ==> Bounded(row)
    ensures forall i, j :: 0 <= i < j < |board| ==> Leads(board[i], board[j])
  {
    hide Leads, AtMost, Bounded;
    forall i, j | 0 <= i < j < |board|
      ensures Leads(board[i], board[j])
    {
      assert board[i] in rows && board[j] in rows;
      BoardOrderInColumns(board[i], board[j]);
    }
  }

  lemma KeptRowsAreRows(board: seq<Row>, rows: seq<Row>)
    requires Heads(board, multiset(rows))
    ensures forall row :: row in board ==> row in rows
  {
    var rest: seq<Row> :| multiset(board) + multiset(rest) == multiset(rows);
    forall row | row in board
      ensures row in rows
    {
      assert row in multiset(board) && row in multiset(rows);
    }
  }

  /** `_ranked`: the list is sorted twice in place and cut. The result is the head of the rows in board
      order, and no row left out belongs before one kept. */
  method Ranked(rows: seq<Row>, limit: int) returns (board: seq<Row>)
    ensures board == Cut(Leaderboard(rows), limit)
    ensures Sorted(Board, board)
    ensures limit >= 0 ==> |board| == if limit <= |rows| then limit else |rows|
    ensures limit < 0 ==> |board| == if -limit <= |rows| then |rows| + limit else 0
    ensures Heads(board, multiset(rows))
    ensures (forall row :: row in rows ==> Bounded(row)) ==>
              forall i, j :: 0 <= i < j < |board| ==> Leads(board[i], board[j])
  {
    hide Leads, Heads;
    var leaderboard := rows;
    leaderboard := StableSort(ByIdentity, leaderboard);
    leaderboard := StableSort(ByRank, leaderboard);
    board := Cut(leaderboard, limit);
    InBoardOrder(rows);
    CutKeepsTheBest(leaderboard, limit);
    assert |multiset(leaderboard)| == |multiset(rows)|;
    KeptRowsAreRows(board, rows);
    if forall row :: row in rows ==> Bounded(row) {
      SortedLeads(board, rows);
    }
  }

  lemma CutKeepsTheBest(leaderboard: seq<Row>, limit: int)
    requires Sorted(Board, leaderboard)
    ensures var board := Cut(leaderboard, limit);
            Sorted(Board, board) && Heads(board, multiset(leaderboard))
  {
    var board := Cut(leaderboard, limit);
    var rest := leaderboard[|board|..];
    assert leaderboard == board + rest;
    assert forall a, b :: a in board && b in rest ==> AtMost(Board, a, b);
  }

  /** The rest of the rows belong after those kept. */
  ghost predicate Heads(board: seq<Row>, rows: multiset<Row>) {
    exists rest: seq<Row> ::
      multiset(board) + multiset(rest) == rows && forall a, b :: a in board && b in rest ==> AtMost(Board, a, b)
  }

  /** The top k is a prefix of every longer board. */
  lemma ShorterBoardIsAPrefix(rows: seq<Row>, k: nat, l: nat)
    requires k <= l
    ensures Cut(Leaderboard(rows), k) <= Cut(Leaderboard(rows), l)
  {
  }

  /** Two different rows that tie on rank, opportunities and identity. */
  ghost predicate HasFullTie(rows: seq<Row>) {
    exists a, b :: a in rows && b in rows && a != b && Ties(Board, a, b)
  }

  lemma SameFirst(a: seq<Row>, b: seq<Row>)
    requires Sorted(Board, a) && Sorted(Board, b) && multiset(a) == multiset(b) && !HasFullTie(a) && a != []
    ensures b != [] && a[0] == b[0]
  {
    assert a[0] in multiset(b);
    assert b[0] in multiset(a);
    AtMostIsTotal(Board, a[0], a[0]);
    AtMostIsTotal(Board, b[0], b[0]);
    assert a[0] in b && b[0] in a;
    assert AtMost(Board, a[0], b[0]) && AtMost(Board, b[0], a[0]);
    assert a[0] in a && Ties(Board, a[0], b[0]);
  }

  lemma {:induction false} SortedIsUnique(a: seq<Row>, b: seq<Row>)
    requires Sorted(Board, a) && Sorted(Board, b) && multiset(a) == multiset(b) && !HasFullTie(a)
    ensures a == b
  {
    if a == [] {
      assert |multiset(b)| == 0;
    } else {
      SameFirst(a, b);
      assert a == [a[0]] + a[1..] && b == [b[0]] + b[1..];
      assert multiset(a[1..]) == multiset(a) - multiset{a[0]};
      assert multiset(b[1..]) == multiset(b) - multiset{b[0]};
      assert forall x :: x in a[1..] ==> x in a;
      SortedIsUnique(a[1..], b[1..]);
    }
  }

  ghost predicate DependsOnlyOnTheRows(rows: seq<Row>) {
    forall other :: multiset(other) == multiset(rows) ==> Leaderboard(other) == Leaderboard(rows)
  }

  /** The order in which the query returned the rows never shows, exactly when no two different rows tie
      on everything. */
  lemma OrderNeverShowsIffNoFullTie(rows: seq<Row>)
    ensures DependsOnlyOnTheRows(rows) <==> !HasFullTie(rows)
  {
    if HasFullTie(rows) {
      var a, b :| a in rows && b in rows && a != b && Ties(Board, a, b);
      TieShows(rows, a, b);
    } else {
      forall other | multiset(other) == multiset(rows)
        ensures Leaderboard(other) == Leaderboard(rows)
      {
        InBoardOrder(rows);
        InBoardOrder(other);
        assert forall x :: x in Leaderboard(rows) ==> x in multiset(rows);
        SortedIsUnique(Leaderboard(rows), Leaderboard(other));
      }
    }
  }

  lemma InBoardOrder(rows: seq<Row>)
    ensures Sorted(Board, Leaderboard(rows)) && multiset(Leaderboard(rows)) == multiset(rows)
  {
    LeaderboardIsStable(rows);
    TwoPassesGiveTheBoardOrder(rows, StableSort(ByIdentity, rows), Leaderboard(rows));
  }

  lemma TieShows(rows: seq<Row>, a: Row, b: Row)
    requires a in rows && b in rows && a != b && Ties(Board, a, b)
    ensures !DependsOnlyOnTheRows(rows)
  {
    var rest := Without(Without(rows, a), b);
    WithoutBoth(rows, a, b);
    FirstShows(rest, a, b);
  }

  lemma WithoutBoth(rows: seq<Row>, a: Row, b: Row)
    requires a in rows && b in rows && a != b
    ensures var rest := Without(Without(rows, a), b);
            multiset([a, b] + rest) == multiset(rows) && multiset([b, a] + rest) == multiset(rows)
  {
    WithoutOne(rows, a);
    assert b in multiset(rows) - multiset{a};
    assert b in Without(rows, a);
    WithoutOne(Without(rows, a), b);
  }

  lemma FirstShows(rest: seq<Row>, a: Row, b: Row)
    requires a != b && Ties(Board, a, b)
    ensures Leaderboard([a, b] + rest) != Leaderboard([b, a] + rest)
  {
    FirstOfTie([a, b] + rest, a);
    FirstOfTie([b, a] + rest, b);
    PeersOfTie(Leaderboard([b, a] + rest), a, b);
    assert Peers(Board, a, Leaderboard([a, b] + rest))[0] == a;
    assert Peers(Board, a, Leaderboard([b, a] + rest))[0] == b;
  }

  /** Of the rows that tie with the first one, it stays first. */
  lemma FirstOfTie(rows: seq<Row>, a: Row)
    requires rows != [] && rows[0] == a
    ensures Peers(Board, a, Leaderboard(rows)) == [a] + Peers(Board, a, rows[1..])
  {
    LeaderboardIsStable(rows);
    FullTiesKeepQueryOrder(rows, StableSort(ByIdentity, rows), Leaderboard(rows), a);
    AtMostIsTotal(Board, a, a);
  }

  lemma {:induction false} PeersOfTie(rows: seq<Row>, a: Row, b: Row)
    requires Ties(Board, a, b)
    ensures Peers(Board, a, rows) == Peers(Board, b, rows)
  {
    if rows != [] {
      PeersOfTie(rows[1..], a, b);
      forall x
        ensures Ties(Board, a, x) <==> Ties(Board, b, x)
      {
        if Ties(Board, a, x) {
          AtMostIsTransitive(Board, b, a, x);
          AtMostIsTransitive(Board, x, a, b);
        }
        if Ties(Board, b, x) {
          AtMostIsTransitive(Board, a, b, x);
          AtMostIsTransitive(Board, x, b, a);
        }
      }
    }
  }

  function Without(rows: seq<Row>, x: Row): seq<Row> {
    if rows == [] then [] else if rows[0] == x then rows[1..] else [rows[0]] + Without(rows[1..], x)
  }

  lemma {:induction false} WithoutOne(rows: seq<Row>, x: Row)
    requires x in rows
    ensures multiset(rows) == multiset{x} + multiset(Without(rows, x))
  {
    assert rows == [rows[0]] + rows[1..];
    if rows[0] != x {
      WithoutOne(rows[1..], x);
    }
  }

  predicate SameGroup(a: Row, b: Row) {
    a.repo == b.repo && a.name == b.name && a.workflowId == b.workflowId
  }

  /** Two groups of one board share an identity only when one has no workflow and the other has workflow
      zero, so boards whose workflow ids are positive never have a full tie. */
  lemma PositiveWorkflowsNeverTie(rows: seq<Row>)
    requires forall a, b :: a in rows && b in rows && SameGroup(a, b) ==> a == b
    requires forall a :: a in rows ==> a.workflowId != Some(0)
    ensures !HasFullTie(rows)
  {
    forall a, b | a in rows && b in rows && Ties(Board, a, b)
      ensures a == b
    {
      Names.LessIsTotal(a.repo, b.repo);
      Names.LessIsTotal(a.name, b.name);
    }
  }
}
