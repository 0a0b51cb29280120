/** What reconciling the cells of a scan one after the other does to the store. */
module Scans {
  import opened Domain
  import opened History

  function AfterCells(rows: Rows, cells: seq<Cell>, ctx: Context): Rows {
    if |cells| == 0 then rows
    else AfterCell(AfterCells(rows, cells[..|cells|-1], ctx), cells[|cells|-1], ctx)
  }

  function CellsLog(rows: Rows, cells: seq<Cell>, ctx: Context): seq<Observation> {
    if |cells| == 0 then []
    else
      var rest := cells[..|cells|-1];
      CellsLog(rows, rest, ctx) + CellLog(AfterCells(rows, rest, ctx), cells[|cells|-1], ctx)
  }

  function CellsTally(rows: Rows, cells: seq<Cell>, ctx: Context): Tally {
    if |cells| == 0 then Tally(0, 0, 0, 0)
    else
      var rest := cells[..|cells|-1];
      CellsTally(rows, rest, ctx)
      .Plus(CellTally(AfterCells(rows, rest, ctx), cells[|cells|-1], ctx))
  }

  function CellsIds(cells: seq<Cell>): seq<Identity> {
    if |cells| == 0 then [] else CellsIds(cells[..|cells|-1]) + CellIds(cells[|cells|-1])
  }

  // The scan gets through without violating the unique (finding, scan) key on observations.
  ghost predicate Commits(log: seq<Observation>, cells: seq<Cell>, scan: ScanId) {
    Distinct(CellsIds(cells)) && Unlogged(log, CellsIds(cells), scan)
  }

  datatype Exposure = Exposure(headline: real, low: real) {
    function Plus(other: Exposure): Exposure {
      Exposure(headline + other.headline, low + other.low)
    }
  }

  const NO_EXPOSURE: Exposure := Exposure(0.0, 0.0)

  function ExposureOfOne(status: FindingStatus, monthly: Option<real>, confidence: CostConfidence)
    : Exposure
  {
    if !status.Open? || monthly.None? then NO_EXPOSURE
    else match confidence
      case HighCost => Exposure(monthly.value, 0.0)
      case MediumCost => Exposure(monthly.value, 0.0)
      case LowCost => Exposure(0.0, monthly.value)
      case UnavailableCost => NO_EXPOSURE
  }

  // What the scan's headline figures add up, over the rows as they are when the cells are done.
  function RowsExposure(rows: Rows, ids: seq<Identity>): Exposure {
    if |ids| == 0 then NO_EXPOSURE
    else
      var id := ids[|ids|-1];
      RowsExposure(rows, ids[..|ids|-1]).Plus(
        if id in rows then ExposureOfOne(rows[id].status, rows[id].monthly, rows[id].confidence)
        else NO_EXPOSURE)
  }

  function OpenCost(status: FindingStatus, monthly: Option<real>, confidence: CostConfidence,
                    among: set<CostConfidence>): real
  {
    if status.Open? && monthly.Some? && confidence in among then monthly.value else 0.0
  }

  // What the open rows among these cost whose confidence is one of these.
  function OpenCosts(rows: Rows, ids: seq<Identity>, among: set<CostConfidence>): real {
    if |ids| == 0 then 0.0
    else
      var id := ids[|ids|-1];
      OpenCosts(rows, ids[..|ids|-1], among)
      + if id in rows then OpenCost(rows[id].status, rows[id].monthly, rows[id].confidence, among)
        else 0.0
  }

  /** The headline adds up the open rows with a cost of high or medium confidence, the other figure
      those of low confidence. */
  lemma ExposureExactly(rows: Rows, ids: seq<Identity>)
    ensures RowsExposure(rows, ids)
         == Exposure(OpenCosts(rows, ids, {HighCost, MediumCost}), OpenCosts(rows, ids, {LowCost}))
  {
    HeadlineIs(rows, ids, {HighCost, MediumCost});
    LowIs(rows, ids, {LowCost});
  }

  ghost predicate Firm(among: set<CostConfidence>) {
    forall c :: c in among <==> c.HighCost? || c.MediumCost?
  }

  ghost predicate Vague(among: set<CostConfidence>) {
    forall c :: c in among <==> c.LowCost?
  }

  lemma OneHeadline(status: FindingStatus, monthly: Option<real>, confidence: CostConfidence,
                    firm: set<CostConfidence>)
    requires Firm(firm)
    ensures ExposureOfOne(status, monthly, confidence).headline
         == OpenCost(status, monthly, confidence, firm)
  {
  }

  lemma OneLow(status: FindingStatus, monthly: Option<real>, confidence: CostConfidence,
               vague: set<CostConfidence>)
    requires Vague(vague)
    ensures ExposureOfOne(status, monthly, confidence).low
         == OpenCost(status, monthly, confidence, vague)
  {
  }

  lemma {:induction false} HeadlineIs(rows: Rows, ids: seq<Identity>, firm: set<CostConfidence>)
    requires Firm(firm)
    ensures RowsExposure(rows, ids).headline == OpenCosts(rows, ids, firm)
  {
    hide ExposureOfOne, OpenCost, Firm;
    if |ids| > 0 {
      HeadlineIs(rows, ids[..|ids|-1], firm);
      var id := ids[|ids|-1];
      if id in rows {
        OneHeadline(rows[id].status, rows[id].monthly, rows[id].confidence, firm);
      }
    }
  }

  lemma {:induction false} LowIs(rows: Rows, ids: seq<Identity>, vague: set<CostConfidence>)
    requires Vague(vague)
    ensures RowsExposure(rows, ids).low == OpenCosts(rows, ids, vague)
  {
    hide ExposureOfOne, OpenCost, Vague;
    if |ids| > 0 {
      LowIs(rows, ids[..|ids|-1], vague);
      var id := ids[|ids|-1];
      if id in rows {
        OneLow(rows[id].status, rows[id].monthly, rows[id].confidence, vague);
      }
    }
  }

  // One cell of a scan under way; None stands for the integrity error.
  ghost function PlayCell(p: Progress, cell: Cell, ctx: Context): Option<Progress> {
    if Distinct(CellIds(cell)) && Unlogged(p.log, CellIds(cell), ctx.scan)
    then Some(Advance(p, cell, ctx)) else None
  }

  function Advance(p: Progress, cell: Cell, ctx: Context): Progress {
    Progress(AfterCell(p.rows, cell, ctx), p.log + CellLog(p.rows, cell, ctx),
             p.tally.Plus(CellTally(p.rows, cell, ctx)), p.ids + CellIds(cell))
  }

  ghost function PlayCells(p: Progress, cells: seq<Cell>, ctx: Context): Option<Progress> {
    if |cells| == 0 then Some(p)
    else
      var before := PlayCells(p, cells[..|cells|-1], ctx);
      if before.None? then None else PlayCell(before.value, cells[|cells|-1], ctx)
  }

  // Where a scan that gets through ends up.
  function ScanProgress(rows: Rows, log: seq<Observation>, cells: seq<Cell>, ctx: Context): Progress
  {
    Progress(AfterCells(rows, cells, ctx), log + CellsLog(rows, cells, ctx),
             CellsTally(rows, cells, ctx), CellsIds(cells))
  }

  lemma {:induction false} PlayCellsAppend(p: Progress, a: seq<Cell>, b: seq<Cell>, ctx: Context)
    ensures var first := PlayCells(p, a, ctx);
            PlayCells(p, a + b, ctx)
            == if first.None? then None else PlayCells(first.value, b, ctx)
  {
    if |b| == 0 {
      assert a + b == a;
    } else {
      assert (a + b)[..|a + b|-1] == a + b[..|b|-1];
      PlayCellsAppend(p, a, b[..|b|-1], ctx);
    }
  }

  // The next cell decides whether the scan can go on.
  lemma PlayCellsExtends(p: Progress, cells: seq<Cell>, i: nat, ctx: Context)
    requires i < |cells|
    ensures var before := PlayCells(p, cells[..i], ctx);
            && PlayCells(p, cells[..i + 1], ctx)
               == (if before.None? then None else PlayCell(before.value, cells[i], ctx))
            && (PlayCells(p, cells[..i + 1], ctx).None? ==> PlayCells(p, cells, ctx).None?)
  {
    hide PlayCell;
    assert cells[..i + 1][..i] == cells[..i];
    PlayCellsAppend(p, cells[..i + 1], cells[i + 1..], ctx);
    assert cells == cells[..i + 1] + cells[i + 1..];
  }

  // The observation rows carry these identities, in order, and this scan's id.
  ghost predicate Keyed(log: seq<Observation>, ids: seq<Identity>, scan: ScanId) {
    && |log| == |ids|
    && forall k :: 0 <= k < |log| ==> log[k].identity == ids[k] && log[k].scan == scan
  }

  lemma CellLogKeys(rows: Rows, cell: Cell, ctx: Context)
    ensures Keyed(CellLog(rows, cell, ctx), CellIds(cell), ctx.scan)
  {
    if cell.status.CellComplete? {
      CandidateLogKeys(rows, cell.candidates, cell.detector, ctx);
    }
  }

  lemma {:induction false} CellsLogKeys(rows: Rows, cells: seq<Cell>, ctx: Context)
    ensures Keyed(CellsLog(rows, cells, ctx), CellsIds(cells), ctx.scan)
  {
    if |cells| > 0 {
      var rest, cell := cells[..|cells|-1], cells[|cells|-1];
      CellsLogKeys(rows, rest, ctx);
      CellLogKeys(AfterCells(rows, rest, ctx), cell, ctx);
    }
  }

  lemma SplitKeys(log: seq<Observation>, more: seq<Observation>, ids: seq<Identity>,
                  tail: seq<Identity>, scan: ScanId)
    requires Keyed(more, ids, scan)
    requires Distinct(ids) && Unlogged(log, ids, scan)
    ensures Distinct(tail) && Unlogged(log + more, tail, scan)
       <==> Distinct(ids + tail) && Unlogged(log, ids + tail, scan)
  {
    var all := ids + tail;
    if Distinct(tail) && Unlogged(log + more, tail, scan) {
      forall i, j | 0 <= i < j < |all|
        ensures all[i] != all[j]
      {
        if i < |ids| && j >= |ids| {
          assert more[i] in log + more && all[j] in tail;
        }
      }
      forall o, id | o in log && id in all
        ensures o.identity != id || o.scan != scan
      {
        assert o in log + more;
      }
    }
    if Distinct(all) && Unlogged(log, all, scan) {
      forall i, j | 0 <= i < j < |tail|
        ensures tail[i] != tail[j]
      {
        assert all[|ids| + i] != all[|ids| + j];
      }
      forall o, id | o in log + more && id in tail
        ensures o.identity != id || o.scan != scan
      {
        var j :| 0 <= j < |tail| && tail[j] == id;
        assert id == all[|ids| + j] && id in all;
        if o !in log {
          var k :| 0 <= k < |more| && more[k] == o;
          assert all[k] != all[|ids| + j];
        }
      }
    }
  }

  lemma PrefixKeys(log: seq<Observation>, ids: seq<Identity>, tail: seq<Identity>, scan: ScanId)
    requires Distinct(ids + tail) && Unlogged(log, ids + tail, scan)
    ensures Distinct(ids) && Unlogged(log, ids, scan)
  {
    var all := ids + tail;
    assert forall i :: 0 <= i < |ids| ==> all[i] == ids[i];
    assert forall id :: id in ids ==> id in all;
  }

  lemma AdvanceScan(rows: Rows, log: seq<Observation>, cells: seq<Cell>, ctx: Context)
    requires |cells| > 0
    ensures ScanProgress(rows, log, cells, ctx)
         == Advance(ScanProgress(rows, log, cells[..|cells|-1], ctx), cells[|cells|-1], ctx)
  {
    hide AfterCell, CellLog, CellTally, CellIds;
  }

  lemma {:induction false} PlayCellsValue(rows: Rows, log: seq<Observation>, cells: seq<Cell>,
                                          ctx: Context)
    ensures var p := PlayCells(Progress(rows, log, Tally(0, 0, 0, 0), []), cells, ctx);
            p.Some? ==> p.value == ScanProgress(rows, log, cells, ctx)
  {
    hide Advance, Distinct, Unlogged;
    if |cells| > 0 {
      PlayCellsValue(rows, log, cells[..|cells|-1], ctx);
      AdvanceScan(rows, log, cells, ctx);
    }
  }

  /** Reconciling a scan's cells in turn gets through exactly when no observation key repeats, and
      then leaves the rows, log and tally the definitions above say. */
  lemma {:induction false} PlayCellsMeans(rows: Rows, log: seq<Observation>, cells: seq<Cell>,
                                          ctx: Context)
    ensures var p := PlayCells(Progress(rows, log, Tally(0, 0, 0, 0), []), cells, ctx);
            && (p.Some? <==> Commits(log, cells, ctx.scan))
            && (p.Some? ==> p.value == ScanProgress(rows, log, cells, ctx))
  {
    PlayCellsValue(rows, log, cells, ctx);
    if |cells| > 0 {
      hide Advance, Distinct, Unlogged;
      var rest, cell := cells[..|cells|-1], cells[|cells|-1];
      PlayCellsMeans(rows, log, rest, ctx);
      CellsLogKeys(rows, rest, ctx);
      if Commits(log, rest, ctx.scan) {
        SplitKeys(log, CellsLog(rows, rest, ctx), CellsIds(rest), CellIds(cell), ctx.scan);
      } else if Commits(log, cells, ctx.scan) {
        PrefixKeys(log, CellsIds(rest), CellIds(cell), ctx.scan);
      }
    }
  }
}
