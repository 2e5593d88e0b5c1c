/**
  The merge rule every fact write goes through (`_never_regress`): a payload that is at least as
  advanced as the stored row overwrites the columns it supplies, a payload that is behind
  contributes nothing.

  A row's progress columns are a map from column to value in which a NULL column has no entry,
  so COALESCE(excluded, stored) over all the columns at once is the map union `stored + excluded`.
 */
module Merge {
  import opened Wrappers

  datatype Column =
    | Conclusion | StartedAt | CompletedAt | RunnerName | RunnerLabels | StepCount | CompletedStepCount
    | HeadBranch | Event | RunStartedAt | GithubCreatedAt | GithubUpdatedAt

  datatype Value = Text(text: string) | Number(number: int) | Labels(labels: seq<string>)

  /** The progress part of one payload, or of one stored row. */
  datatype Payload = Payload(status: Option<string>, cells: map<Column, Value>)

  const COMPLETED := "completed"
  const IN_PROGRESS := "in_progress"

  function StatusRank(status: Option<string>): int {
    if status == Some(COMPLETED) then 3 else if status == Some(IN_PROGRESS) then 2 else 1
  }

  function Rank(p: Payload): int {
    StatusRank(p.status)
  }

  function NeverRegress(excluded: Payload, stored: Payload): Payload {
    if Rank(excluded) >= Rank(stored) then
      Payload(excluded.status, stored.cells + excluded.cells)
    else
      stored
  }

  /** What a row holds after its payloads were processed in this order: the first one is inserted. */
  function MergeAll(ps: seq<Payload>): Payload
    requires ps != []
  {
    if |ps| == 1 then ps[0] else NeverRegress(ps[|ps| - 1], MergeAll(ps[..|ps| - 1]))
  }

  // ---------------------------------------------------------------------------------------------
  // When the order of the payloads does not matter
  // ---------------------------------------------------------------------------------------------

  /** p is as advanced as anything in the family. */
  ghost predicate IsTop(p: Payload, family: set<Payload>) {
    p in family && forall q :: q in family ==> Rank(q) <= Rank(p)
  }

  ghost predicate TopStatus(status: Option<string>, family: set<Payload>) {
    exists p :: IsTop(p, family) && p.status == status
  }

  ghost predicate Supplied(c: Column, family: set<Payload>) {
    exists p :: p in family && c in p.cells
  }

  /** Some most advanced payload supplies v for column c. */
  ghost predicate TopValue(c: Column, v: Value, family: set<Payload>) {
    exists p :: IsTop(p, family) && c in p.cells && p.cells[c] == v
  }

  ghost predicate TopSupplied(c: Column, family: set<Payload>) {
    exists v :: TopValue(c, v, family)
  }

  /** The most advanced payloads agree with one another and supply every column any payload supplies. */
  ghost predicate Dominated(family: set<Payload>) {
    && (forall s, t :: TopStatus(s, family) && TopStatus(t, family) ==> s == t)
    && (forall c, v, w :: TopValue(c, v, family) && TopValue(c, w, family) ==> v == w)
    && (forall c :: Supplied(c, family) ==> TopSupplied(c, family))
  }

  /** Every processing order of the family, with any repetition, stores the same row. */
  ghost predicate OrderIndependent(family: set<Payload>) {
    forall s: seq<Payload>, t: seq<Payload> ::
      s != [] && t != [] && Elements(s) == family && Elements(t) == family ==> MergeAll(s) == MergeAll(t)
  }

  /** What is true of the stored row whatever the order was. */
  ghost predicate Explains(row: Payload, family: set<Payload>) {
    && TopStatus(row.status, family)
    && (forall c :: c in row.cells ==> Supplied(c, family))
    && (forall c :: TopSupplied(c, family) ==> c in row.cells && TopValue(c, row.cells[c], family))
  }

  lemma {:induction false} MergeExplains(ps: seq<Payload>)
    requires ps != []
    ensures Explains(MergeAll(ps), Elements(ps))
  {
    if |ps| == 1 {
      assert IsTop(ps[0], Elements(ps));
    } else {
      var e, before := ps[|ps| - 1], ps[..|ps| - 1];
      MergeExplains(before);
      assert Elements(ps) == Elements(before) + {e};
      ExplainsOneMore(MergeAll(before), Elements(before), e);
    }
  }

  lemma ExplainsOneMore(row: Payload, family: set<Payload>, e: Payload)
    requires Explains(row, family)
    ensures Explains(NeverRegress(e, row), family + {e})
  {
    var all := family + {e};
    var next := NeverRegress(e, row);
    var top :| IsTop(top, family) && top.status == row.status;
    assert IsTop(if Rank(e) >= Rank(row) then e else top, all);
    assert TopStatus(next.status, all);
    forall c | c in next.cells
      ensures Supplied(c, all)
    {
      if c !in e.cells || Rank(e) < Rank(row) {
        var p :| p in family && c in p.cells;
        assert p in all;
      } else {
        assert e in all;
      }
    }
    forall c | TopSupplied(c, all)
      ensures c in next.cells && TopValue(c, next.cells[c], all)
    {
      TopColumnOneMore(row, family, e, c);
    }
  }

  lemma TopColumnOneMore(row: Payload, family: set<Payload>, e: Payload, c: Column)
    requires Explains(row, family) && TopSupplied(c, family + {e})
    ensures var next := NeverRegress(e, row); c in next.cells && TopValue(c, next.cells[c], family + {e})
  {
    var all := family + {e};
    var top :| IsTop(top, family) && top.status == row.status;
    var v :| TopValue(c, v, all);
    var p :| IsTop(p, all) && c in p.cells && p.cells[c] == v;
    if Rank(e) >= Rank(row) && c in e.cells {
      assert IsTop(e, all);
    } else {
      assert p in family && IsTop(p, family);
      StoredColumnStaysTop(row, family, e, c, p);
    }
  }

  lemma StoredColumnStaysTop(row: Payload, family: set<Payload>, e: Payload, c: Column, p: Payload)
    requires Explains(row, family) && IsTop(p, family) && IsTop(p, family + {e}) && c in p.cells
    ensures c in row.cells && TopValue(c, row.cells[c], family + {e})
  {
    assert TopValue(c, p.cells[c], family);
    assert TopValue(c, row.cells[c], family);
    var q :| IsTop(q, family) && c in q.cells && q.cells[c] == row.cells[c];
    assert Rank(q) == Rank(p);
    assert IsTop(q, family + {e});
  }

  /** A dominated family leaves only one row that Explains admits. */
  lemma DominatedRowIsUnique(r1: Payload, r2: Payload, family: set<Payload>)
    requires Dominated(family) && Explains(r1, family) && Explains(r2, family)
    ensures r1 == r2
  {
    assert r1.cells.Keys == r2.cells.Keys;
    assert r1.cells == r2.cells;
  }

  lemma MergeAllSnoc(s: seq<Payload>, p: Payload)
    requires s != []
    ensures MergeAll(s + [p]) == NeverRegress(p, MergeAll(s))
  {
    assert (s + [p])[..|s|] == s;
  }

  /** With no hypothesis at all, however a history s goes on: the rank of the row never falls, it is at
      least that of every payload processed, and a column that was supplied never becomes NULL again. */
  lemma {:induction false} RowNeverRegresses(s: seq<Payload>, rest: seq<Payload>)
    requires s != []
    ensures Rank(MergeAll(s + rest)) >= Rank(MergeAll(s))
    ensures forall p :: p in rest ==> Rank(MergeAll(s + rest)) >= Rank(p)
    ensures MergeAll(s).cells.Keys <= MergeAll(s + rest).cells.Keys
  {
    if rest == [] {
      assert s + rest == s;
    } else {
      var e, before := rest[|rest| - 1], rest[..|rest| - 1];
      RowNeverRegresses(s, before);
      assert s + rest == (s + before) + [e];
      MergeAllSnoc(s + before, e);
      assert rest == before + [e];
    }
  }

  /** After a most advanced payload only the most advanced ones still write. */
  lemma {:induction false} UnsuppliedStays(p: Payload, rest: seq<Payload>, family: set<Payload>, c: Column)
    requires IsTop(p, family) && Elements(rest) <= family
    requires forall q :: IsTop(q, family) ==> c !in q.cells
    ensures Rank(MergeAll([p] + rest)) == Rank(p) && c !in MergeAll([p] + rest).cells
  {
    if rest == [] {
      assert [p] + rest == [p];
    } else {
      var e, before := rest[|rest| - 1], rest[..|rest| - 1];
      assert e in Elements(rest);
      assert Elements(before) <= Elements(rest);
      UnsuppliedStays(p, before, family, c);
      assert [p] + rest == ([p] + before) + [e];
      MergeAllSnoc([p] + before, e);
      if Rank(e) >= Rank(p) {
        assert IsTop(e, family);
      }
    }
  }

  /** Appending a most advanced payload to an enumeration makes its status and its columns the row's. */
  lemma TopWrittenLast(s: seq<Payload>, p: Payload, family: set<Payload>)
    requires Elements(s) == family && IsTop(p, family)
    ensures s != [] && Elements(s + [p]) == family
    ensures MergeAll(s + [p]).status == p.status
    ensures forall c :: c in p.cells ==> c in MergeAll(s + [p]).cells && MergeAll(s + [p]).cells[c] == p.cells[c]
  {
    assert p in Elements(s);
    MergeExplains(s);
    var top :| IsTop(top, family) && top.status == MergeAll(s).status;
    MergeAllSnoc(s, p);
  }

  lemma TopsAgree(family: set<Payload>, p: Payload, q: Payload)
    requires OrderIndependent(family) && IsTop(p, family) && IsTop(q, family)
    ensures p.status == q.status
    ensures forall c :: c in p.cells && c in q.cells ==> p.cells[c] == q.cells[c]
  {
    var s := Enumerate(family);
    TopWrittenLast(s, p, family);
    TopWrittenLast(s, q, family);
    assert MergeAll(s + [p]) == MergeAll(s + [q]);
  }

  lemma PrependToEnumeration(s: seq<Payload>, p: Payload, family: set<Payload>)
    requires Elements(s) == family && p in family
    ensures Elements([p] + s) == family
  {
  }

  lemma TopsSupply(family: set<Payload>, p: Payload, c: Column)
    requires OrderIndependent(family) && p in family && c in p.cells
    ensures TopSupplied(c, family)
  {
    var s := Enumerate(family);
    var top := ATop(s, p);
    PrependToEnumeration(s, p, family);
    PrependToEnumeration(s, top, family);
    RowNeverRegresses([p], s);
    assert c in MergeAll([top] + s).cells by {
      assert MergeAll([p] + s) == MergeAll([top] + s);
    }
    if forall q :: IsTop(q, family) ==> c !in q.cells {
      UnsuppliedStays(top, s, family, c);
      assert false;
    }
    var q :| IsTop(q, family) && c in q.cells;
    assert TopValue(c, q.cells[c], family);
  }

  lemma ATop(s: seq<Payload>, p: Payload) returns (top: Payload)
    requires p in Elements(s)
    ensures IsTop(top, Elements(s))
  {
    MergeExplains(s);
    top :| IsTop(top, Elements(s)) && top.status == MergeAll(s).status;
  }

  lemma IndependentImpliesDominated(family: set<Payload>)
    requires OrderIndependent(family)
    ensures Dominated(family)
  {
    forall s, t | TopStatus(s, family) && TopStatus(t, family)
      ensures s == t
    {
      var p :| IsTop(p, family) && p.status == s;
      var q :| IsTop(q, family) && q.status == t;
      TopsAgree(family, p, q);
    }
    forall c, v, w | TopValue(c, v, family) && TopValue(c, w, family)
      ensures v == w
    {
      var p :| IsTop(p, family) && c in p.cells && p.cells[c] == v;
      var q :| IsTop(q, family) && c in q.cells && q.cells[c] == w;
      TopsAgree(family, p, q);
    }
    forall c | Supplied(c, family)
      ensures TopSupplied(c, family)
    {
      var p :| p in family && c in p.cells;
      TopsSupply(family, p, c);
    }
  }

  /** Exactly when a row does not depend on the order or the repetition of its payloads. */
  lemma OrderIndependentIffDominated(family: set<Payload>)
    ensures OrderIndependent(family) <==> Dominated(family)
  {
    if OrderIndependent(family) {
      IndependentImpliesDominated(family);
    }
    if Dominated(family) {
      forall s: seq<Payload>, t: seq<Payload> |
        s != [] && t != [] && Elements(s) == family && Elements(t) == family
        ensures MergeAll(s) == MergeAll(t)
      {
        MergeExplains(s);
        MergeExplains(t);
        DominatedRowIsUnique(MergeAll(s), MergeAll(t), family);
      }
    }
  }

  // ---------------------------------------------------------------------------------------------
  // The row in terms of the history alone
  // ---------------------------------------------------------------------------------------------

  /** A completed payload is ahead of any other, and one in progress of any that is neither. */
  predicate Ahead(a: Option<string>, b: Option<string>) {
    || (a == Some("completed") && b != Some("completed"))
    || (a == Some("in_progress") && b != Some("completed") && b != Some("in_progress"))
  }

  /** No payload processed before it was ahead of it. */
  ghost predicate Applies(ps: seq<Payload>, k: int) {
    0 <= k < |ps| && forall j :: 0 <= j < k ==> !Ahead(ps[j].status, ps[k].status)
  }

  ghost predicate Supplies(ps: seq<Payload>, k: int, c: Column) {
    Applies(ps, k) && c in ps[k].cells
  }

  lemma AppliesToTheRest(ps: seq<Payload>, k: int)
    requires 0 <= k < |ps| - 1
    ensures Applies(ps, k) <==> Applies(ps[..|ps| - 1], k)
  {
  }

  lemma {:induction false} RowIsTheMostAdvanced(ps: seq<Payload>) returns (top: int)
    requires ps != []
    ensures forall j :: 0 <= j < |ps| ==> !Ahead(ps[j].status, MergeAll(ps).status)
    ensures 0 <= top < |ps| && ps[top].status == MergeAll(ps).status
  {
    var last := |ps| - 1;
    if last == 0 {
      top := 0;
    } else {
      var before := ps[..last];
      var t := RowIsTheMostAdvanced(before);
      top := if Rank(ps[last]) >= Rank(MergeAll(before)) then last else t;
      forall i | 0 <= i < |ps|
        ensures !Ahead(ps[i].status, MergeAll(ps).status)
      {
        assert i < last ==> ps[i] == before[i];
      }
    }
  }

  lemma LastPayloadAppliesIff(ps: seq<Payload>)
    requires |ps| > 1
    ensures Applies(ps, |ps| - 1) <==> Rank(ps[|ps| - 1]) >= Rank(MergeAll(ps[..|ps| - 1]))
  {
    var before := ps[..|ps| - 1];
    var top := RowIsTheMostAdvanced(before);
    assert ps[top] == before[top];
    assert forall i :: 0 <= i < |before| ==> ps[i] == before[i];
  }

  /** Whatever the history: the status is that of the last payload that no earlier one was ahead of. */
  lemma {:induction false} StatusIsTheLastApplied(ps: seq<Payload>, k: int)
    requires Applies(ps, k) && (forall j :: k < j < |ps| ==> !Applies(ps, j))
    ensures MergeAll(ps).status == ps[k].status
  {
    if |ps| > 1 {
      LastPayloadAppliesIff(ps);
      var before := ps[..|ps| - 1];
      if k < |before| {
        AppliesToTheRest(ps, k);
        forall j | k < j < |before|
          ensures !Applies(before, j)
        {
          AppliesToTheRest(ps, j);
        }
        StatusIsTheLastApplied(before, k);
      }
    }
  }

  /** The last payload to supply a column among those that apply, or -1. */
  ghost predicate IsLastSupplier(ps: seq<Payload>, k: int, c: Column) {
    && (k == -1 || Supplies(ps, k, c))
    && forall j :: k < j < |ps| ==> !Supplies(ps, j, c)
  }

  lemma {:induction false} LastSupplier(ps: seq<Payload>, c: Column) returns (k: int)
    requires ps != []
    ensures k >= -1 && IsLastSupplier(ps, k, c)
    ensures c in MergeAll(ps).cells <==> k >= 0
    ensures k >= 0 ==> MergeAll(ps).cells[c] == ps[k].cells[c]
  {
    var last := |ps| - 1;
    if last == 0 {
      k := if c in ps[0].cells then 0 else -1;
    } else {
      var before := ps[..last];
      k := LastSupplier(before, c);
      LastPayloadAppliesIff(ps);
      if Supplies(ps, last, c) {
        k := last;
      } else {
        SuppliersStay(ps, k, c);
      }
    }
  }

  lemma SuppliersStay(ps: seq<Payload>, k: int, c: Column)
    requires |ps| > 1 && k >= -1 && IsLastSupplier(ps[..|ps| - 1], k, c) && !Supplies(ps, |ps| - 1, c)
    ensures IsLastSupplier(ps, k, c)
  {
    var before := ps[..|ps| - 1];
    forall j | 0 <= j < |before|
      ensures Supplies(ps, j, c) <==> Supplies(before, j, c)
    {
      AppliesToTheRest(ps, j);
    }
  }

  /** And every column holds what the last such payload that supplies it says, or NULL if none does. */
  lemma ColumnIsTheLastSupplied(ps: seq<Payload>, c: Column, k: int)
    requires ps != [] && k >= -1 && IsLastSupplier(ps, k, c)
    ensures if k == -1 then c !in MergeAll(ps).cells
            else c in MergeAll(ps).cells && MergeAll(ps).cells[c] == ps[k].cells[c]
  {
    var last := LastSupplier(ps, c);
    assert last > k ==> !Supplies(ps, last, c);
    assert k > last ==> !Supplies(ps, k, c);
  }

  /** The stub of a run that a job event writes has no status, so it overwrites a stored `queued`:
      which of the two statuses remains depends on the order. One later `in_progress` payload
      that supplies the same columns settles it. */
  lemma StubAndQueuedDoNotConverge(branch: Value)
    ensures var stub := Payload(None, map[HeadBranch := branch]);
            var queued := Payload(Some("queued"), map[HeadBranch := branch]);
            var started := Payload(Some(IN_PROGRESS), map[HeadBranch := branch]);
            && MergeAll([stub, queued]) != MergeAll([queued, stub])
            && !OrderIndependent({stub, queued})
            && OrderIndependent({stub, queued, started})
  {
    var stub := Payload(None, map[HeadBranch := branch]);
    var queued := Payload(Some("queued"), map[HeadBranch := branch]);
    var started := Payload(Some(IN_PROGRESS), map[HeadBranch := branch]);
    assert [stub, queued][..1] == [stub] && [queued, stub][..1] == [queued];
    assert Elements([stub, queued]) == {stub, queued} && Elements([queued, stub]) == {stub, queued};
    var family := {stub, queued, started};
    assert IsTop(started, family);
    assert TopValue(HeadBranch, branch, family);
    assert Dominated(family);
    OrderIndependentIffDominated(family);
  }
}
