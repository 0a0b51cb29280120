/** The order in which a scan's cells are reconciled does not matter. */
module Confluence {
  import opened Domain
  import opened History
  import opened Scans
  import opened Runs
  import opened Cells

  ghost predicate DistinctCells(cells: seq<Cell>) {
    forall i, j :: 0 <= i < j < |cells| ==>
      cells[i].region != cells[j].region || cells[i].detector != cells[j].detector
  }

  ghost predicate AllStamped(cells: seq<Cell>, ctx: Context) {
    forall c :: c in cells ==> Stamped(c, ctx)
  }

  // ---- rows -------------------------------------------------------------------------------

  // Of cells with distinct region and detector, only one has anything to say about an identity.
  lemma {:induction false} OnlyOneCellSpeaks(cells: seq<Cell>, ctx: Context, id: Identity, c: Cell)
    requires DistinctCells(cells) && AllStamped(cells, ctx)
    requires c in cells && c.status.CellComplete? && InCell(c, ctx, id)
    ensures CellsEvents(cells, ctx, id) == CellEvents(c, ctx, id)
  {
    var rest, last := cells[..|cells|-1], cells[|cells|-1];
    assert cells == rest + [last];
    var k :| 0 <= k < |cells| && cells[k] == c;
    if k < |rest| {
      OnlyOneCellSpeaks(rest, ctx, id, c);
      assert !InCell(last, ctx, id);
      assert Stamped(last, ctx);
      assert CellEvents(last, ctx, id) == [];
    } else {
      NoEventWithoutReport(rest, ctx, id);
    }
  }

  lemma SameEvents(a: seq<Cell>, b: seq<Cell>, ctx: Context, id: Identity)
    requires multiset(a) == multiset(b)
    requires DistinctCells(a) && DistinctCells(b) && AllStamped(a, ctx)
    ensures AllStamped(b, ctx)
    ensures CellsEvents(a, ctx, id) == CellsEvents(b, ctx, id)
  {
    hide DistinctCells, Stamped, CellEvents, CellsEvents;
    assert forall c :: c in a <==> c in multiset(a);
    assert forall c :: c in b <==> c in multiset(b);
    if c :| c in a && c.status.CellComplete? && InCell(c, ctx, id) {
      OnlyOneCellSpeaks(a, ctx, id, c);
      OnlyOneCellSpeaks(b, ctx, id, c);
    } else {
      NoEventWithoutReport(a, ctx, id);
      NoEventWithoutReport(b, ctx, id);
    }
  }

  lemma SameRows(rows: Rows, a: seq<Cell>, b: seq<Cell>, ctx: Context)
    requires multiset(a) == multiset(b)
    requires DistinctCells(a) && DistinctCells(b) && AllStamped(a, ctx)
    ensures AfterCells(rows, a, ctx) == AfterCells(rows, b, ctx)
  {
    hide AfterCells, CellsEvents, Fold, DistinctCells, AllStamped;
    forall id
      ensures Lookup(AfterCells(rows, a, ctx), id) == Lookup(AfterCells(rows, b, ctx), id)
    {
      SameEvents(a, b, ctx, id);
      LookupAfterCells(rows, a, ctx, id);
      LookupAfterCells(rows, b, ctx, id);
    }
    SameLookups(AfterCells(rows, a, ctx), AfterCells(rows, b, ctx));
  }

  // ---- counters and sums ------------------------------------------------------------------

  function Sum(f: Cell -> Totals, cells: seq<Cell>): Totals {
    if |cells| == 0 then NO_TOTALS
    else Sum(f, cells[..|cells|-1]).Plus(f(cells[|cells|-1]))
  }

  lemma {:induction false} SumAppend(f: Cell -> Totals, a: seq<Cell>, b: seq<Cell>)
    ensures Sum(f, a + b) == Sum(f, a).Plus(Sum(f, b))
  {
    if |b| == 0 {
      assert a + b == a;
    } else {
      assert (a + b)[..|a + b|-1] == a + b[..|b|-1];
      SumAppend(f, a, b[..|b|-1]);
    }
  }

  lemma SumAroundOne(f: Cell -> Totals, a: seq<Cell>, c: Cell, b: seq<Cell>)
    ensures Sum(f, a + [c] + b) == Sum(f, a + b).Plus(f(c))
  {
    SumAppend(f, a, b);
    SumAppend(f, a + [c], b);
    SumAppend(f, a, [c]);
    assert [c][..0] == [];
  }

  // Two sequences with the same elements agree once their common last element is taken out.
  lemma WithoutOne<T>(s: seq<T>, k: nat)
    requires k < |s|
    ensures s == s[..k] + [s[k]] + s[k + 1..]
    ensures multiset(s) == multiset(s[..k] + s[k + 1..]) + multiset{s[k]}
  {
    assert s == s[..k] + [s[k]] + s[k + 1..];
    assert multiset(s) == multiset(s[..k]) + multiset([s[k]]) + multiset(s[k + 1..]);
  }

  lemma SameWithoutOne<T>(a: multiset<T>, b: multiset<T>, x: T)
    requires a + multiset{x} == b + multiset{x}
    ensures a == b
  {
    assert (a + multiset{x}) - multiset{x} == a;
    assert (b + multiset{x}) - multiset{x} == b;
  }

  lemma Without<T>(a: seq<T>, b: seq<T>) returns (k: nat)
    requires multiset(a) == multiset(b) && |a| > 0
    ensures k < |b| && b == b[..k] + [a[|a|-1]] + b[k + 1..]
    ensures multiset(a[..|a|-1]) == multiset(b[..k] + b[k + 1..])
  {
    var n := |a| - 1;
    assert a[n] in multiset(b);
    k :| 0 <= k < |b| && b[k] == a[n];
    WithoutOne(a, n);
    WithoutOne(b, k);
    assert a[..n] + a[n + 1..] == a[..n];
    SameWithoutOne(multiset(a[..n]), multiset(b[..k] + b[k + 1..]), a[n]);
  }

  lemma {:induction false} SumPermutes(f: Cell -> Totals, a: seq<Cell>, b: seq<Cell>)
    requires multiset(a) == multiset(b)
    ensures Sum(f, a) == Sum(f, b)
  {
    if |a| == 0 {
      assert |multiset(b)| == 0;
    } else {
      var k := Without(a, b);
      SumPermutes(f, a[..|a|-1], b[..k] + b[k + 1..]);
      SumAroundOne(f, b[..k], a[|a|-1], b[k + 1..]);
    }
  }

  lemma {:induction false} TallyOfLookups(rows: Rows, other: Rows, candidates: seq<Candidate>,
                                          detector: DetectorType, ctx: Context)
    requires forall id :: id in Ids(candidates) ==> Lookup(rows, id) == Lookup(other, id)
    ensures CandidatesTally(rows, candidates, detector, ctx)
         == CandidatesTally(other, candidates, detector, ctx)
  {
    if |candidates| > 0 {
      hide Observed;
      var rest, last := candidates[..|candidates|-1], candidates[|candidates|-1];
      assert candidates == rest + [last];
      assert last in candidates;
      assert Lookup(rows, last.identity) == Lookup(other, last.identity);
      TallyOfLookups(rows, other, rest, detector, ctx);
    }
  }

  // A cell counts the same whether or not cells of other regions or detectors went before.
  lemma TallyIsLocal(rows: Rows, before: seq<Cell>, cell: Cell, ctx: Context)
    requires DistinctCells(before + [cell]) && AllStamped(before + [cell], ctx)
    ensures CellTally(AfterCells(rows, before, ctx), cell, ctx) == CellTally(rows, cell, ctx)
  {
    var after := AfterCells(rows, before, ctx);
    var cells := before + [cell];
    assert forall c :: c in before ==> c in cells;
    assert Stamped(cells[|before|], ctx);
    forall id | InCell(cell, ctx, id)
      ensures Lookup(after, id) == Lookup(rows, id)
    {
      forall c | c in before
        ensures !InCell(c, ctx, id)
      {
        var k :| 0 <= k < |before| && before[k] == c;
        assert cells[k] == c && cells[|before|] == cell;
      }
      NoEventWithoutReport(before, ctx, id);
      LookupAfterCells(rows, before, ctx, id);
    }
    TallyOfLookups(after, rows, cell.candidates, cell.detector, ctx);
    forall id
      ensures id in Vanished(after, cell, ctx) <==> id in Vanished(rows, cell, ctx)
    {
      if InCell(cell, ctx, id) {
        assert Lookup(after, id) == Lookup(rows, id);
      }
    }
    assert Vanished(after, cell, ctx) == Vanished(rows, cell, ctx);
  }

  lemma {:induction false} ExposureAppend(rows: Rows, a: seq<Identity>, b: seq<Identity>)
    ensures RowsExposure(rows, a + b) == RowsExposure(rows, a).Plus(RowsExposure(rows, b))
  {
    hide RowsExposure, Exposure.Plus, ExposureIn;
    if |b| == 0 {
      assert a + b == a;
      NoExposureIsNeutral(rows, RowsExposure(rows, a));
    } else {
      var rest, last := b[..|b|-1], b[|b|-1];
      ExposureAppend(rows, a, rest);
      assert (a + b)[..|a + b|-1] == a + rest && (a + b)[|a + b|-1] == last;
      OneMoreExposure(rows, a + b);
      OneMoreExposure(rows, b);
      PlusAssociates(RowsExposure(rows, a), RowsExposure(rows, rest), ExposureIn(rows, last));
    }
  }

  // What one finding adds to the sums.
  function ExposureIn(rows: Rows, id: Identity): Exposure {
    if id in rows then ExposureOfOne(rows[id].status, rows[id].monthly, rows[id].confidence)
    else NO_EXPOSURE
  }

  lemma OneMoreExposure(rows: Rows, ids: seq<Identity>)
    requires |ids| > 0
    ensures RowsExposure(rows, ids)
         == RowsExposure(rows, ids[..|ids|-1]).Plus(ExposureIn(rows, ids[|ids|-1]))
  {
    hide ExposureOfOne, Exposure.Plus;
  }

  lemma NoExposureIsNeutral(rows: Rows, e: Exposure)
    ensures RowsExposure(rows, []) == NO_EXPOSURE && e.Plus(NO_EXPOSURE) == e
  {
  }

  lemma PlusAssociates(a: Exposure, b: Exposure, c: Exposure)
    ensures a.Plus(b).Plus(c) == a.Plus(b.Plus(c))
  {
  }

  // What one cell adds to a scan's totals, counted on the rows before the scan and priced on the
  // rows after it.
  function CellTotals(before: Rows, after: Rows, ctx: Context): Cell -> Totals {
    cell => Totals(CellTally(before, cell, ctx), RowsExposure(after, CellIds(cell)))
  }

  lemma {:induction false} TotalsAreASum(rows: Rows, after: Rows, cells: seq<Cell>, ctx: Context)
    requires DistinctCells(cells) && AllStamped(cells, ctx)
    ensures Totals(CellsTally(rows, cells, ctx), RowsExposure(after, CellsIds(cells)))
         == Sum(CellTotals(rows, after, ctx), cells)
  {
    if |cells| > 0 {
      hide CellTally, Stamped, CellIds, RowsExposure;
      var rest, last := cells[..|cells|-1], cells[|cells|-1];
      assert cells == rest + [last];
      TotalsAreASum(rows, after, rest, ctx);
      TallyIsLocal(rows, rest, last, ctx);
      ExposureAppend(after, CellsIds(rest), CellIds(last));
    }
  }

  // ---- the observation key ----------------------------------------------------------------

  lemma {:induction false} IdsAppend(a: seq<Cell>, b: seq<Cell>)
    ensures CellsIds(a + b) == CellsIds(a) + CellsIds(b)
  {
    if |b| == 0 {
      assert a + b == a;
    } else {
      hide CellIds;
      IdsAppend(a, b[..|b|-1]);
      assert (a + b)[..|a + b|-1] == a + b[..|b|-1] && (a + b)[|a + b|-1] == b[|b|-1];
    }
  }

  lemma {:induction false} IdsPermute(a: seq<Cell>, b: seq<Cell>)
    requires multiset(a) == multiset(b)
    ensures multiset(CellsIds(a)) == multiset(CellsIds(b))
  {
    if |a| == 0 {
      assert |multiset(b)| == 0;
    } else {
      hide CellIds;
      var k := Without(a, b);
      var last := a[|a|-1];
      IdsPermute(a[..|a|-1], b[..k] + b[k + 1..]);
      IdsAppend(b[..k], b[k + 1..]);
      IdsAppend(b[..k] + [last], b[k + 1..]);
      IdsAppend(b[..k], [last]);
      assert [last][..0] == [];
    }
  }

  lemma DistinctIsOrderFree(a: seq<Identity>, b: seq<Identity>)
    requires multiset(a) == multiset(b) && Distinct(a)
    ensures Distinct(b)
  {
    forall i, j | 0 <= i < j < |b|
      ensures b[i] != b[j]
    {
      if b[i] == b[j] {
        var x := b[i];
        assert b == b[..i] + [x] + b[i + 1..j] + [x] + b[j + 1..];
        assert multiset(b)[x] >= 2;
        TwiceInDistinct(a, x);
      }
    }
  }

  lemma {:induction false} TwiceInDistinct<T>(a: seq<T>, x: T)
    requires Distinct(a)
    ensures multiset(a)[x] <= 1
  {
    if |a| > 0 {
      var rest, last := a[..|a|-1], a[|a|-1];
      assert a == rest + [last];
      TwiceInDistinct(rest, x);
      assert last !in rest;
    }
  }

  /** Confluence: for cells of distinct region and detector, any order commits or none does, and
      every order leaves the same rows, the same counters and the same exposure sums. */
  lemma CellOrderDoesNotMatter(db: Db, a: seq<Cell>, b: seq<Cell>, ctx: Context)
    requires multiset(a) == multiset(b)
    requires DistinctCells(a) && DistinctCells(b) && AllStamped(a, ctx)
    ensures Commits(db.log, a, ctx.scan) <==> Commits(db.log, b, ctx.scan)
    ensures AfterCells(db.rows, a, ctx) == AfterCells(db.rows, b, ctx)
    ensures CellsTally(db.rows, a, ctx) == CellsTally(db.rows, b, ctx)
    ensures var after := AfterCells(db.rows, a, ctx);
            RowsExposure(after, CellsIds(a)) == RowsExposure(after, CellsIds(b))
    ensures Apply(db, ScanStep(ctx, a)).rows == Apply(db, ScanStep(ctx, b)).rows
    ensures Apply(db, ScanStep(ctx, a)).scans == Apply(db, ScanStep(ctx, b)).scans
  {
    hide DistinctCells, CellsIds, CellsTally, RowsExposure, AfterCells, Stamped, Distinct;
    var after := AfterCells(db.rows, a, ctx);
    SameRows(db.rows, a, b, ctx);
    assert forall c :: c in b ==> c in multiset(a);
    TotalsAreASum(db.rows, after, a, ctx);
    TotalsAreASum(db.rows, after, b, ctx);
    SumPermutes(CellTotals(db.rows, after, ctx), a, b);
    IdsPermute(a, b);
    if Distinct(CellsIds(a)) {
      DistinctIsOrderFree(CellsIds(a), CellsIds(b));
    }
    if Distinct(CellsIds(b)) {
      DistinctIsOrderFree(CellsIds(b), CellsIds(a));
    }
    assert forall id :: id in CellsIds(a) <==> id in multiset(CellsIds(a));
    assert forall id :: id in CellsIds(b) <==> id in multiset(CellsIds(b));
  }
}
