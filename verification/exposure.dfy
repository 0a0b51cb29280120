/** Money and counts of a scan, recomputed later from its observation rows. */
module ExposureHistory {
  import opened Domain
  import opened History
  import opened Scans
  import opened Runs
  import Cells

  // Complete cells of the same region and detector carry the same candidates, as cells detected
  // once per region do even when a region is listed twice.
  ghost predicate Agree(cells: seq<Cell>) {
    forall c, d :: c in cells && d in cells && c.status.CellComplete? && d.status.CellComplete?
                   && c.region == d.region && c.detector == d.detector ==>
      c.candidates == d.candidates
  }

  ghost predicate Sound(cells: seq<Cell>, ctx: Context) {
    Agree(cells) && forall c :: c in cells ==> Stamped(c, ctx)
  }

  // ---- observation rows keep describing the scan's last word ------------------------------

  lemma {:induction false} IdComesFromCell(cells: seq<Cell>, id: Identity) returns (c: Cell)
    requires id in CellsIds(cells)
    ensures c in cells && c.status.CellComplete? && id in Ids(c.candidates)
  {
    var rest, last := cells[..|cells|-1], cells[|cells|-1];
    assert cells == rest + [last];
    if id in CellIds(last) {
      c := last;
      var k :| 0 <= k < |last.candidates| && last.candidates[k].identity == id;
      assert last.candidates[k] in last.candidates;
    } else {
      c := IdComesFromCell(rest, id);
    }
  }

  lemma LaterCellLeaves(rest: seq<Cell>, cell: Cell, rows: Rows, ctx: Context, id: Identity)
    requires Sound(rest + [cell], ctx) && Distinct(CellsIds(rest) + CellIds(cell))
    requires id in CellsIds(rest)
    ensures Lookup(AfterCell(rows, cell, ctx), id) == Lookup(rows, id)
  {
    var cells := rest + [cell];
    var c := IdComesFromCell(rest, id);
    assert c in cells && cells[|rest|] in cells;
    DistinctParts(CellsIds(rest), CellIds(cell));
    LookupAfterCell(rows, cell, ctx, id);
    if cell.status.CellComplete? {
      forall k | 0 <= k < |cell.candidates|
        ensures cell.candidates[k].identity != id
      {
        assert CandidateIds(cell.candidates)[k] in CellIds(cell);
      }
      assert c.candidates != cell.candidates;
      assert InCell(c, ctx, id);
    }
  }

  lemma CellLogEntry(rows: Rows, cell: Cell, ctx: Context, k: nat)
    requires Distinct(CellIds(cell)) && k < |CellIds(cell)|
    ensures |CellLog(rows, cell, ctx)| == |CellIds(cell)|
    ensures var id, after := CellIds(cell)[k], AfterCell(rows, cell, ctx);
            id in after && CellLog(rows, cell, ctx)[k] == ObservationOf(id, after[id], ctx)
  {
    hide Observed, AfterCell, CandidateLog;
    Cells.OneObservationEach(rows, cell, ctx, k);
  }

  /** Once a scan's cells are all reconciled, each of its observation rows still shows the row its
      finding was left with. */
  lemma {:induction false} LogIsLastWord(rows: Rows, cells: seq<Cell>, ctx: Context, k: nat)
    requires Sound(cells, ctx) && Distinct(CellsIds(cells)) && k < |CellsIds(cells)|
    ensures Keyed(CellsLog(rows, cells, ctx), CellsIds(cells), ctx.scan)
    ensures var id, after := CellsIds(cells)[k], AfterCells(rows, cells, ctx);
            id in after && CellsLog(rows, cells, ctx)[k] == ObservationOf(id, after[id], ctx)
  {
    hide AfterCell, CellLog, ObservationOf, CellIds;
    var rest, last := cells[..|cells|-1], cells[|cells|-1];
    assert cells == rest + [last];
    CellsLogKeys(rows, cells, ctx);
    CellsLogKeys(rows, rest, ctx);
    DistinctParts(CellsIds(rest), CellIds(last));
    var before := AfterCells(rows, rest, ctx);
    if k < |CellsIds(rest)| {
      LogIsLastWord(rows, rest, ctx, k);
      var id := CellsIds(rest)[k];
      LaterCellLeaves(rest, last, before, ctx, id);
      assert Lookup(AfterCells(rows, cells, ctx), id) == Lookup(before, id);
    } else {
      CellLogEntry(before, last, ctx, k - |CellsIds(rest)|);
    }
  }

  // ---- sums over observation rows ---------------------------------------------------------

  function LogExposure(log: seq<Observation>): Exposure {
    if |log| == 0 then NO_EXPOSURE
    else
      var o := log[|log|-1];
      LogExposure(log[..|log|-1]).Plus(ExposureOfOne(o.status, o.monthly, o.confidence))
  }

  lemma {:induction false} SumOfLog(rows: Rows, log: seq<Observation>, ids: seq<Identity>,
                                    ctx: Context)
    requires |log| == |ids|
    requires forall k :: 0 <= k < |ids| ==>
               ids[k] in rows && log[k] == ObservationOf(ids[k], rows[ids[k]], ctx)
    ensures LogExposure(log) == RowsExposure(rows, ids)
  {
    if |ids| > 0 {
      SumOfLog(rows, log[..|log|-1], ids[..|ids|-1], ctx);
    }
  }

  /** The exposure a scan adds up from the live finding rows is the exposure of the observation rows
      it wrote. */
  lemma ScanExposureIsLogExposure(rows: Rows, cells: seq<Cell>, ctx: Context)
    requires Sound(cells, ctx) && Distinct(CellsIds(cells))
    ensures RowsExposure(AfterCells(rows, cells, ctx), CellsIds(cells))
         == LogExposure(CellsLog(rows, cells, ctx))
  {
    hide AfterCells, CellsLog, CellsIds, ObservationOf, RowsExposure, LogExposure, Sound, Distinct;
    CellsLogKeys(rows, cells, ctx);
    var ids, after := CellsIds(cells), AfterCells(rows, cells, ctx);
    forall k | 0 <= k < |ids|
      ensures ids[k] in after
      ensures CellsLog(rows, cells, ctx)[k] == ObservationOf(ids[k], after[ids[k]], ctx)
    {
      LogIsLastWord(rows, cells, ctx, k);
    }
    SumOfLog(after, CellsLog(rows, cells, ctx), ids, ctx);
  }

  // ---- later scans and patches cannot change it -------------------------------------------

  function OfScan(log: seq<Observation>, scan: ScanId): seq<Observation> {
    if |log| == 0 then []
    else OfScan(log[..|log|-1], scan)
         + if log[|log|-1].scan == scan then [log[|log|-1]] else []
  }

  lemma {:induction false} OfScanAppend(a: seq<Observation>, b: seq<Observation>, scan: ScanId)
    ensures OfScan(a + b, scan) == OfScan(a, scan) + OfScan(b, scan)
  {
    if |b| == 0 {
      assert a + b == a;
    } else {
      assert (a + b)[..|a + b|-1] == a + b[..|b|-1];
      OfScanAppend(a, b[..|b|-1], scan);
    }
  }

  lemma {:induction false} OfScanAllOrNone(log: seq<Observation>, owner: ScanId, scan: ScanId)
    requires forall o :: o in log ==> o.scan == owner
    ensures OfScan(log, scan) == if scan == owner then log else []
  {
    if |log| > 0 {
      assert log == log[..|log|-1] + [log[|log|-1]];
      OfScanAllOrNone(log[..|log|-1], owner, scan);
    }
  }

  lemma {:induction false} OfScanNone(log: seq<Observation>, scan: ScanId)
    requires forall o :: o in log ==> o.scan != scan
    ensures OfScan(log, scan) == []
  {
    if |log| > 0 {
      assert log == log[..|log|-1] + [log[|log|-1]];
      OfScanNone(log[..|log|-1], scan);
    }
  }

  // The last step appends to the log, under its own scan id.
  lemma LastStepAppends(steps: seq<Step>, scan: ScanId)
    requires WellFormed(steps) && |steps| > 0
    requires steps[|steps|-1].ScanStep? ==> steps[|steps|-1].ctx.scan != scan
    ensures OfScan(Run(steps).log, scan) == OfScan(Run(steps[..|steps|-1]).log, scan)
    ensures scan in Run(steps[..|steps|-1]).scans ==>
              scan in Run(steps).scans
              && Run(steps).scans[scan] == Run(steps[..|steps|-1]).scans[scan]
  {
    hide AfterCells, CellsLog, CellsIds, CellsTally, RowsExposure, OfScan, Commits, WellFormed;
    var db, last := Run(steps[..|steps|-1]), steps[|steps|-1];
    if last.ScanStep? {
      var more := CellsLog(db.rows, last.cells, last.ctx);
      CellsLogKeys(db.rows, last.cells, last.ctx);
      OfScanAppend(db.log, more, scan);
      OfScanAllOrNone(more, last.ctx.scan, scan);
    }
  }

  /** The observation rows and the totals of a scan are final: whatever scans and patches follow,
      they read as they did when the scan committed. */
  lemma {:induction false} ScanHistoryIsFinal(steps: seq<Step>, i: nat)
    requires WellFormed(steps) && i < |steps| && steps[i].ScanStep?
    requires Distinct(CellsIds(steps[i].cells))
    ensures var db, ctx, cells := Run(steps[..i]), steps[i].ctx, steps[i].cells;
            && OfScan(Run(steps).log, ctx.scan) == CellsLog(db.rows, cells, ctx)
            && ctx.scan in Run(steps).scans
            && Run(steps).scans[ctx.scan]
               == Totals(CellsTally(db.rows, cells, ctx),
                         RowsExposure(AfterCells(db.rows, cells, ctx), CellsIds(cells)))
  {
    hide AfterCells, CellsLog, CellsIds, CellsTally, RowsExposure, OfScan, Commits, Distinct;
    var n := |steps| - 1;
    var rest := steps[..n];
    WellFormedPrefix(steps);
    if i < n {
      assert rest[..i] == steps[..i] && rest[i] == steps[i];
      ScanHistoryIsFinal(rest, i);
      LastStepAppends(steps, steps[i].ctx.scan);
    } else {
      assert steps[..i] == rest;
      var ctx, cells := steps[i].ctx, steps[i].cells;
      FreshScanCommits(steps);
      LogIsOfEarlierScans(rest);
      OfScanNone(Run(rest).log, ctx.scan);
      OfScanAppend(Run(rest).log, CellsLog(Run(rest).rows, cells, ctx), ctx.scan);
      CellsLogKeys(Run(rest).rows, cells, ctx);
      OfScanAllOrNone(CellsLog(Run(rest).rows, cells, ctx), ctx.scan, ctx.scan);
    }
  }

  // ---- HistoryService.points --------------------------------------------------------------

  function Count(log: seq<Observation>, t: ResourceType): nat {
    if |log| == 0 then 0
    else Count(log[..|log|-1], t)
         + if log[|log|-1].identity.resourceType == t then 1 else 0
  }

  function Headline(log: seq<Observation>, t: ResourceType): real {
    if |log| == 0 then 0.0
    else
      var o := log[|log|-1];
      Headline(log[..|log|-1], t)
      + if o.identity.resourceType == t
        then ExposureOfOne(o.status, o.monthly, o.confidence).headline else 0.0
  }

  // What the open observation rows of these resource types cost whose confidence is one of these.
  function LoggedCosts(log: seq<Observation>, types: set<ResourceType>, among: set<CostConfidence>)
    : real
  {
    if |log| == 0 then 0.0
    else
      var o := log[|log|-1];
      LoggedCosts(log[..|log|-1], types, among)
      + if o.identity.resourceType in types then OpenCost(o.status, o.monthly, o.confidence, among)
        else 0.0
  }

  /** A type's exposure adds up its open rows with a cost of high or medium confidence; over all types,
      with the open rows of low confidence beside it, it is the exposure of the log. */
  lemma LogExposureExactly(log: seq<Observation>, t: ResourceType)
    ensures Headline(log, t) == LoggedCosts(log, {t}, {HighCost, MediumCost})
    ensures var types := {EbsVolume, ElasticIp, Ec2Instance, EbsSnapshot};
            LogExposure(log) == Exposure(LoggedCosts(log, types, {HighCost, MediumCost}),
                                         LoggedCosts(log, types, {LowCost}))
  {
    TypeHeadlineIs(log, t, {HighCost, MediumCost});
    var types := {EbsVolume, ElasticIp, Ec2Instance, EbsSnapshot};
    forall x: ResourceType
      ensures x in types
    {
      assert x.EbsVolume? || x.ElasticIp? || x.Ec2Instance? || x.EbsSnapshot?;
    }
    LogHeadlineIs(log, types, {HighCost, MediumCost});
    LogLowIs(log, types, {LowCost});
  }

  lemma {:induction false} TypeHeadlineIs(log: seq<Observation>, t: ResourceType,
                                          firm: set<CostConfidence>)
    requires Firm(firm)
    ensures Headline(log, t) == LoggedCosts(log, {t}, firm)
  {
    hide ExposureOfOne, OpenCost, Firm;
    if |log| > 0 {
      TypeHeadlineIs(log[..|log|-1], t, firm);
      var o := log[|log|-1];
      OneHeadline(o.status, o.monthly, o.confidence, firm);
    }
  }

  lemma {:induction false} LogHeadlineIs(log: seq<Observation>, types: set<ResourceType>,
                                         firm: set<CostConfidence>)
    requires Firm(firm) && forall t :: t in types
    ensures LogExposure(log).headline == LoggedCosts(log, types, firm)
  {
    hide ExposureOfOne, OpenCost, Firm;
    if |log| > 0 {
      LogHeadlineIs(log[..|log|-1], types, firm);
      var o := log[|log|-1];
      OneHeadline(o.status, o.monthly, o.confidence, firm);
    }
  }

  lemma {:induction false} LogLowIs(log: seq<Observation>, types: set<ResourceType>,
                                    vague: set<CostConfidence>)
    requires Vague(vague) && forall t :: t in types
    ensures LogExposure(log).low == LoggedCosts(log, types, vague)
  {
    hide ExposureOfOne, OpenCost, Vague;
    if |log| > 0 {
      LogLowIs(log[..|log|-1], types, vague);
      var o := log[|log|-1];
      OneLow(o.status, o.monthly, o.confidence, vague);
    }
  }

  // The row has a cost that the history shows.
  predicate IsShown(o: Observation) {
    o.status.Open? && o.monthly.Some? && (o.confidence.HighCost? || o.confidence.MediumCost?)
  }

  function Get<V>(m: map<ResourceType, V>, t: ResourceType, default: V): V {
    if t in m then m[t] else default
  }

  function SumReal(m: map<ResourceType, real>): real {
    Get(m, EbsVolume, 0.0) + Get(m, ElasticIp, 0.0) + Get(m, Ec2Instance, 0.0)
    + Get(m, EbsSnapshot, 0.0)
  }

  function SumNat(m: map<ResourceType, nat>): nat {
    Get(m, EbsVolume, 0) + Get(m, ElasticIp, 0) + Get(m, Ec2Instance, 0) + Get(m, EbsSnapshot, 0)
  }

  lemma {:induction false} ByTypeAddsUp(log: seq<Observation>)
    ensures Headline(log, EbsVolume) + Headline(log, ElasticIp) + Headline(log, Ec2Instance)
            + Headline(log, EbsSnapshot) == LogExposure(log).headline
    ensures Count(log, EbsVolume) + Count(log, ElasticIp) + Count(log, Ec2Instance)
            + Count(log, EbsSnapshot) == |log|
  {
    if |log| > 0 {
      ByTypeAddsUp(log[..|log|-1]);
    }
  }

  /** Recomputes one scan's point of the history from its observation rows. */
  method Point(log: seq<Observation>, scan: ScanId)
    returns (observed: nat, counts: map<ResourceType, nat>, exposure: map<ResourceType, real>)
    ensures var rows := OfScan(log, scan);
            && observed == |rows|
            && (forall t :: Get(counts, t, 0) == Count(rows, t))
            && (forall t :: t in counts <==> Count(rows, t) > 0)
            && (forall t :: Get(exposure, t, 0.0) == LoggedCosts(rows, {t}, {HighCost, MediumCost}))
            && (forall t :: t in exposure <==>
                  exists o :: o in rows && o.identity.resourceType == t && IsShown(o))
    ensures SumNat(counts) == observed
    ensures SumReal(exposure) == LogExposure(OfScan(log, scan)).headline
  {
    var rows := OfScan(log, scan);
    counts, exposure := map[], map[];
    for i := 0 to |rows|
      invariant forall t :: Get(counts, t, 0) == Count(rows[..i], t)
      invariant forall t :: t in counts <==> Count(rows[..i], t) > 0
      invariant forall t :: Get(exposure, t, 0.0) == Headline(rows[..i], t)
      invariant forall t :: t in exposure <==>
                  exists o :: o in rows[..i] && o.identity.resourceType == t && IsShown(o)
    {
      var o := rows[i];
      var t := o.identity.resourceType;
      assert rows[..i + 1][..i] == rows[..i];
      assert forall x :: x in rows[..i + 1] <==> x in rows[..i] || x == o;
      counts := counts[t := Get(counts, t, 0) + 1];
      if o.status.Open? && (o.confidence.HighCost? || o.confidence.MediumCost?) && o.monthly.Some? {
        exposure := exposure[t := Get(exposure, t, 0.0) + o.monthly.value];
      }
    }
    assert rows[..|rows|] == rows;
    observed := |rows|;
    ByTypeAddsUp(rows);
    forall t: ResourceType
      ensures Headline(rows, t) == LoggedCosts(rows, {t}, {HighCost, MediumCost})
    {
      LogExposureExactly(rows, t);
    }
  }

  /** Conservation over whole runs: the headline stored with a scan is the total of what the history
      recomputes from that scan's observation rows, at any later time; the low-confidence sum is
      theirs too, and the rows per resource type add up to the candidates of the complete cells. */
  lemma ExposureIsConserved(steps: seq<Step>, i: nat)
    requires WellFormed(steps) && i < |steps| && steps[i].ScanStep?
    requires Agree(steps[i].cells) && Distinct(CellsIds(steps[i].cells))
    ensures var db, scan := Run(steps), steps[i].ctx.scan;
            var rows := OfScan(db.log, scan);
            && scan in db.scans && db.scans[scan].exposure == LogExposure(rows)
            && db.scans[scan].exposure.headline
               == Headline(rows, EbsVolume) + Headline(rows, ElasticIp)
                  + Headline(rows, Ec2Instance) + Headline(rows, EbsSnapshot)
            && |CellsIds(steps[i].cells)|
               == Count(rows, EbsVolume) + Count(rows, ElasticIp) + Count(rows, Ec2Instance)
                  + Count(rows, EbsSnapshot)
  {
    hide AfterCells, CellsLog, CellsIds, CellsTally, RowsExposure, OfScan, Headline, Count, Run;
    hide LogExposure;
    var db, ctx, cells := Run(steps[..i]), steps[i].ctx, steps[i].cells;
    ScanHistoryIsFinal(steps, i);
    ScanExposureIsLogExposure(db.rows, cells, ctx);
    CellsLogKeys(db.rows, cells, ctx);
    ByTypeAddsUp(OfScan(Run(steps).log, ctx.scan));
  }
}
