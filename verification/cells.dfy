/** What one complete cell guarantees, and which rows a step of a run can touch. */
module Cells {
  import opened Domain
  import opened History
  import opened Scans
  import opened Runs

  // ---- the store matches reality ----------------------------------------------------------

  // The live findings of a cell.
  function LiveIn(rows: Rows, cell: Cell, ctx: Context): set<Identity> {
    set id | id in rows && InCell(cell, ctx, id) && !rows[id].status.Resolved?
  }

  // The resolved findings whose condition the cell reports again.
  function Reappeared(rows: Rows, cell: Cell): set<Identity> {
    set id | id in rows && id in Ids(cell.candidates) && rows[id].status.Resolved?
  }

  lemma IdsOfMore(rest: seq<Candidate>, c: Candidate)
    requires Distinct(CandidateIds(rest + [c]))
    ensures Distinct(CandidateIds(rest))
    ensures Ids(rest + [c]) == Ids(rest) + {c.identity} && c.identity !in Ids(rest)
  {
    assert CandidateIds(rest + [c]) == CandidateIds(rest) + [c.identity];
    DistinctParts(CandidateIds(rest), [c.identity]);
    forall k | 0 <= k < |rest|
      ensures rest[k].identity != c.identity
    {
      assert CandidateIds(rest)[k] in CandidateIds(rest) && c.identity in [c.identity];
    }
    assert forall d :: d in rest + [c] <==> d in rest || d == c;
  }

  lemma OneMoreKey(ids: set<Identity>, id: Identity, keys: set<Identity>)
    requires id !in ids
    ensures |ids + {id} - keys| == |ids - keys| + if id in keys then 0 else 1
  {
    if id in keys {
      assert ids + {id} - keys == ids - keys;
    } else {
      assert ids + {id} - keys == (ids - keys) + {id};
    }
  }

  lemma {:induction false} AddedAreNew(rows: Rows, candidates: seq<Candidate>,
                                       detector: DetectorType, ctx: Context)
    requires Distinct(CandidateIds(candidates))
    ensures CandidatesTally(rows, candidates, detector, ctx).added
         == |Ids(candidates) - rows.Keys|
    ensures CandidatesTally(rows, candidates, detector, ctx).resolved == 0
  {
    if |candidates| > 0 {
      hide Observed, Distinct, Ids;
      var rest, c := candidates[..|candidates|-1], candidates[|candidates|-1];
      assert candidates == rest + [c];
      IdsOfMore(rest, c);
      AddedAreNew(rows, rest, detector, ctx);
      OneMoreKey(Ids(rest), c.identity, rows.Keys);
    }
  }

  lemma ObservedIsLive(prev: Option<Row>, c: Candidate, detector: DetectorType, ctx: Context)
    ensures !Observed(prev, c, detector, ctx).status.Resolved?
  {
  }

  /** After a complete cell the live findings are exactly its candidates. */
  lemma StoreMatchesReality(rows: Rows, cell: Cell, ctx: Context)
    requires cell.status.CellComplete? && Stamped(cell, ctx)
    ensures LiveIn(AfterCell(rows, cell, ctx), cell, ctx) == Ids(cell.candidates)
  {
    hide Observed;
    var after := AfterCell(rows, cell, ctx);
    var ids := Ids(cell.candidates);
    forall id
      ensures id in LiveIn(after, cell, ctx) <==> id in ids
    {
      LookupAfterCell(rows, cell, ctx, id);
      if id in ids {
        ObservedIsLive(Lookup(rows, id), Pick(cell.candidates, id), cell.detector, ctx);
      }
    }
  }

  /** The number of live findings of a complete cell moves by the added and the reappeared ones and
      by the resolved ones, and by nothing else. */
  lemma LiveBalance(rows: Rows, cell: Cell, ctx: Context)
    requires cell.status.CellComplete? && Stamped(cell, ctx) && Distinct(CellIds(cell))
    ensures |LiveIn(AfterCell(rows, cell, ctx), cell, ctx)|
         == |LiveIn(rows, cell, ctx)| + CellTally(rows, cell, ctx).added
            + |Reappeared(rows, cell)| - CellTally(rows, cell, ctx).resolved
  {
    hide AfterCell, CandidatesTally, Distinct;
    StoreMatchesReality(rows, cell, ctx);
    AddedAreNew(rows, cell.candidates, cell.detector, ctx);
    LiveSplit(rows, cell, ctx);
  }

  lemma LiveSplit(rows: Rows, cell: Cell, ctx: Context)
    requires Stamped(cell, ctx)
    ensures var ids := Ids(cell.candidates);
            |ids| == |ids - rows.Keys| + |Reappeared(rows, cell)|
                     + |LiveIn(rows, cell, ctx)| - |Vanished(rows, cell, ctx)|
  {
    var ids := Ids(cell.candidates);
    assert forall id :: id in ids ==> InCell(cell, ctx, id);
    hide InCell, Stamped, Ids;
    var stayed := ids * LiveIn(rows, cell, ctx);
    assert ids == (ids - rows.Keys) + Reappeared(rows, cell) + stayed;
    assert LiveIn(rows, cell, ctx) == stayed + Vanished(rows, cell, ctx);
  }

  /** Every candidate gets one observation row, and it records the row the cell leaves behind. */
  lemma {:induction false} OneObservationEach(rows: Rows, cell: Cell, ctx: Context, k: nat)
    requires cell.status.CellComplete? && Distinct(CellIds(cell)) && k < |cell.candidates|
    ensures var log, after := CellLog(rows, cell, ctx), AfterCell(rows, cell, ctx);
            && |log| == |cell.candidates|
            && cell.candidates[k].identity in after
            && var id := cell.candidates[k].identity;
               var row := after[id];
               log[k] == Observation(id, ctx.scan, ctx.at, row.status, row.persistence, row.risk,
                                     row.monthly, row.confidence, row.facts.evidence)
  {
    hide Observed;
    var id := cell.candidates[k].identity;
    LookupAfterCell(rows, cell, ctx, id);
    PickIsUnique(cell.candidates, k);
    CandidateLogKeys(rows, cell.candidates, cell.detector, ctx);
    LogEntry(rows, cell.candidates, cell.detector, ctx, k);
  }

  lemma {:induction false} LogEntry(rows: Rows, candidates: seq<Candidate>, detector: DetectorType,
                                    ctx: Context, k: nat)
    requires k < |candidates|
    ensures |CandidateLog(rows, candidates, detector, ctx)| == |candidates|
    ensures var c := candidates[k];
            CandidateLog(rows, candidates, detector, ctx)[k]
            == ObservationOf(c.identity, Observed(Lookup(rows, c.identity), c, detector, ctx), ctx)
  {
    hide Observed, ObservationOf;
    CandidateLogKeys(rows, candidates, detector, ctx);
    CandidateLogKeys(rows, candidates[..|candidates|-1], detector, ctx);
    if k < |candidates| - 1 {
      LogEntry(rows, candidates[..|candidates|-1], detector, ctx, k);
    }
  }

  // ---- resolution safety ------------------------------------------------------------------

  ghost predicate Reports(cells: seq<Cell>, ctx: Context, id: Identity) {
    exists c :: c in cells && c.status.CellComplete? && InCell(c, ctx, id)
  }

  ghost predicate Omits(cells: seq<Cell>, ctx: Context, id: Identity) {
    exists c :: c in cells && c.status.CellComplete? && InCell(c, ctx, id)
                && id !in Ids(c.candidates)
  }

  lemma {:induction false} NoEventWithoutReport(cells: seq<Cell>, ctx: Context, id: Identity)
    requires forall c :: c in cells ==> Stamped(c, ctx)
    requires !Reports(cells, ctx, id)
    ensures CellsEvents(cells, ctx, id) == []
  {
    if |cells| > 0 {
      var rest, cell := cells[..|cells|-1], cells[|cells|-1];
      assert cells == rest + [cell];
      NoEventWithoutReport(rest, ctx, id);
      assert cell.status.CellComplete? ==> !InCell(cell, ctx, id);
    }
  }

  lemma {:induction false} LiveUnlessOmitted(prev: Option<Row>, cells: seq<Cell>, ctx: Context,
                                             id: Identity)
    requires prev.Some? ==> !prev.value.status.Resolved?
    requires !Omits(cells, ctx, id)
    ensures var next := Fold(prev, CellsEvents(cells, ctx, id));
            next.Some? ==> !next.value.status.Resolved?
  {
    if |cells| > 0 {
      hide Observed;
      var rest, cell := cells[..|cells|-1], cells[|cells|-1];
      assert cells == rest + [cell];
      LiveUnlessOmitted(prev, rest, ctx, id);
      FoldAppend(prev, CellsEvents(rest, ctx, id), CellEvents(cell, ctx, id));
      var before := Fold(prev, CellsEvents(rest, ctx, id));
      var events := CellEvents(cell, ctx, id);
      if |events| > 0 {
        assert events[..0] == [];
        ObservedIsLive(before, Pick(cell.candidates, id), cell.detector, ctx);
      }
    }
  }

  /** A step of a run touches a finding only through a complete cell of the finding's account,
      region and detector, or through a patch of that very finding; and only a complete cell whose
      candidates omit a live finding resolves it. */
  lemma ResolutionSafety(db: Db, step: Step, id: Identity)
    requires step.ScanStep? ==> forall c :: c in step.cells ==> Stamped(c, step.ctx)
    ensures Lookup(Apply(db, step).rows, id) != Lookup(db.rows, id) ==>
              || (step.ScanStep? && Reports(step.cells, step.ctx, id))
              || (step.PatchStep? && step.id == id)
    ensures id in db.rows && !db.rows[id].status.Resolved? ==>
              var next := Apply(db, step).rows;
              && id in next
              && (next[id].status.Resolved? ==>
                    step.ScanStep? && Omits(step.cells, step.ctx, id))
  {
    hide AfterCells, CellsEvents, Next, CellsLog, CellsTally, RowsExposure, Commits;
    if step.ScanStep? {
      LookupAfterCells(db.rows, step.cells, step.ctx, id);
      if !Reports(step.cells, step.ctx, id) {
        NoEventWithoutReport(step.cells, step.ctx, id);
      }
      if id in db.rows && !db.rows[id].status.Resolved? {
        FoldKeeps(Lookup(db.rows, id), CellsEvents(step.cells, step.ctx, id));
        if !Omits(step.cells, step.ctx, id) {
          LiveUnlessOmitted(Lookup(db.rows, id), step.cells, step.ctx, id);
        }
      }
    }
  }

  lemma {:induction false} FoldKeeps(prev: Option<Row>, events: seq<Event>)
    requires prev.Some?
    ensures Fold(prev, events).Some?
  {
    if |events| > 0 {
      FoldKeeps(prev, events[..|events|-1]);
    }
  }

  ghost predicate Concerns(step: Step, id: Identity) {
    || (step.ScanStep? && Reports(step.cells, step.ctx, id))
    || (step.PatchStep? && step.id == id)
  }

  /** Over whole runs: a stretch of steps with no complete cell for a finding and no patch of it
      leaves its row identical, whatever happens to every other cell and region. */
  lemma {:induction false} UntouchedStretch(steps: seq<Step>, from: nat, id: Identity)
    requires WellFormed(steps) && from <= |steps|
    requires forall k :: from <= k < |steps| ==> !Concerns(steps[k], id)
    ensures Lookup(Run(steps).rows, id) == Lookup(Run(steps[..from]).rows, id)
  {
    if from == |steps| {
      assert steps[..from] == steps;
    } else {
      hide Apply, WellFormed, Concerns;
      var rest := steps[..|steps|-1];
      assert rest[..from] == steps[..from];
      LastStep(steps, id);
      UntouchedStretch(rest, from, id);
    }
  }

  lemma LastStep(steps: seq<Step>, id: Identity)
    requires WellFormed(steps) && |steps| > 0 && !Concerns(steps[|steps|-1], id)
    ensures WellFormed(steps[..|steps|-1])
    ensures var db := Run(steps[..|steps|-1]);
            Lookup(Apply(db, steps[|steps|-1]).rows, id) == Lookup(db.rows, id)
  {
    ResolutionSafety(Run(steps[..|steps|-1]), steps[|steps|-1], id);
  }

  // ---- the same resources again -----------------------------------------------------------

  // A complete cell for the same account, region and detector as this one.
  predicate Rivals(c: Cell, ctx: Context, cell: Cell, own: Context) {
    && c.status.CellComplete? && ctx.account == own.account
    && c.region == cell.region && c.detector == cell.detector
  }

  // A step that commits no complete cell of this account, region and detector.
  ghost predicate Spares(step: Step, cell: Cell, own: Context) {
    step.ScanStep? && Distinct(CellsIds(step.cells)) ==>
      forall c :: c in step.cells ==> !Rivals(c, step.ctx, cell, own)
  }

  lemma {:induction false} AfterCellsAppend(rows: Rows, a: seq<Cell>, b: seq<Cell>, ctx: Context)
    ensures AfterCells(rows, a + b, ctx) == AfterCells(AfterCells(rows, a, ctx), b, ctx)
  {
    hide AfterCell;
    if |b| == 0 {
      assert a + b == a;
    } else {
      AfterCellsAppend(rows, a, b[..|b|-1], ctx);
      assert (a + b)[..|a + b|-1] == a + b[..|b|-1] && (a + b)[|a + b|-1] == b[|b|-1];
    }
  }

  // Cells of other triples leave the live findings of a cell as they are.
  lemma OtherCellsKeepLive(rows: Rows, cells: seq<Cell>, ctx: Context, cell: Cell, own: Context)
    requires forall c :: c in cells ==> Stamped(c, ctx) && !Rivals(c, ctx, cell, own)
    ensures LiveIn(AfterCells(rows, cells, ctx), cell, own) == LiveIn(rows, cell, own)
  {
    hide AfterCells, CellsEvents, Next;
    var after := AfterCells(rows, cells, ctx);
    forall id | InCell(cell, own, id)
      ensures Lookup(after, id) == Lookup(rows, id)
    {
      LookupAfterCells(rows, cells, ctx, id);
      assert !Reports(cells, ctx, id);
      NoEventWithoutReport(cells, ctx, id);
    }
    SameLive(rows, after, cell, own);
  }

  lemma SameLive(a: Rows, b: Rows, cell: Cell, own: Context)
    requires forall id :: InCell(cell, own, id) ==> Lookup(b, id) == Lookup(a, id)
    ensures LiveIn(b, cell, own) == LiveIn(a, cell, own)
  {
    forall id
      ensures id in LiveIn(b, cell, own) <==> id in LiveIn(a, cell, own)
    {
      assert InCell(cell, own, id) ==> Lookup(b, id) == Lookup(a, id);
    }
  }

  // So does every step that commits no cell of the triple: a patch never resolves.
  lemma StepKeepsLive(steps: seq<Step>, cell: Cell, own: Context)
    requires WellFormed(steps) && |steps| > 0 && Spares(steps[|steps|-1], cell, own)
    ensures LiveIn(Run(steps).rows, cell, own) == LiveIn(Run(steps[..|steps|-1]).rows, cell, own)
  {
    hide AfterCells, CellsLog, CellsTally, RowsExposure, CellsIds, LiveIn, Rivals, Distinct;
    var db, last := Run(steps[..|steps|-1]), steps[|steps|-1];
    if last.ScanStep? {
      FreshScanCommits(steps);
      if Distinct(CellsIds(last.cells)) {
        OtherCellsKeepLive(db.rows, last.cells, last.ctx, cell, own);
      }
    } else if last.PatchStep? {
      PatchKeepsLive(db, last, cell, own);
    }
  }

  lemma PatchKeepsLive(db: Db, step: Step, cell: Cell, own: Context)
    requires step.PatchStep?
    ensures LiveIn(Apply(db, step).rows, cell, own) == LiveIn(db.rows, cell, own)
  {
  }

  lemma {:induction false} StretchKeepsLive(steps: seq<Step>, from: nat, cell: Cell, own: Context)
    requires WellFormed(steps) && from <= |steps|
    requires forall k :: from <= k < |steps| ==> Spares(steps[k], cell, own)
    ensures LiveIn(Run(steps).rows, cell, own) == LiveIn(Run(steps[..from]).rows, cell, own)
  {
    if from == |steps| {
      assert steps[..from] == steps;
    } else {
      hide Run, LiveIn, Spares;
      WellFormedPrefix(steps);
      StepKeepsLive(steps, cell, own);
      var rest := steps[..|steps|-1];
      assert rest[..from] == steps[..from];
      StretchKeepsLive(rest, from, cell, own);
    }
  }

  // The rows that the q-th cell of the j-th step meets, earlier cells of its own scan included.
  ghost function Met(steps: seq<Step>, j: nat, q: nat): Rows
    requires j < |steps| && steps[j].ScanStep? && q <= |steps[j].cells|
  {
    AfterCells(Run(steps[..j]).rows, steps[j].cells[..q], steps[j].ctx)
  }

  // The q-th cell of scan j reports what the p-th cell of scan i reported, and no complete cell of
  // their account, region and detector was committed in between.
  ghost predicate Repeats(steps: seq<Step>, i: nat, p: nat, j: nat, q: nat) {
    && i < j < |steps| && steps[i].ScanStep? && steps[j].ScanStep?
    && p < |steps[i].cells| && q < |steps[j].cells|
    && Distinct(CellsIds(steps[i].cells))
    && var cell, own, again := steps[i].cells[p], steps[i].ctx, steps[j].cells[q];
       && cell.status.CellComplete? && Rivals(again, steps[j].ctx, cell, own)
       && Ids(again.candidates) == Ids(cell.candidates)
       && (forall c :: c in steps[i].cells[p + 1..] ==> !Rivals(c, own, cell, own))
       && (forall k :: i < k < j ==> Spares(steps[k], cell, own))
       && (forall c :: c in steps[j].cells[..q] ==> !Rivals(c, steps[j].ctx, cell, own))
  }

  // What the p-th cell of a scan that commits leaves live is live when the scan is over.
  lemma LiveAfterScan(steps: seq<Step>, i: nat, p: nat)
    requires WellFormed(steps) && i < |steps| && steps[i].ScanStep? && p < |steps[i].cells|
    requires Distinct(CellsIds(steps[i].cells)) && steps[i].cells[p].status.CellComplete?
    requires var cell, own := steps[i].cells[p], steps[i].ctx;
             forall c :: c in steps[i].cells[p + 1..] ==> !Rivals(c, own, cell, own)
    ensures var cell, own := steps[i].cells[p], steps[i].ctx;
            LiveIn(Run(steps[..i + 1]).rows, cell, own) == Ids(cell.candidates)
  {
    hide AfterCells, AfterCell, CellsLog, CellsTally, RowsExposure, CellsIds, LiveIn, Rivals;
    var cells, own := steps[i].cells, steps[i].ctx;
    var cell, db := cells[p], Run(steps[..i]);
    assert steps[..i + 1][..i] == steps[..i];
    FreshScanCommits(steps[..i + 1]);
    assert cells == (cells[..p] + [cell]) + cells[p + 1..];
    AfterCellsAppend(db.rows, cells[..p] + [cell], cells[p + 1..], own);
    OneCell(db.rows, cells[..p], cell, own);
    StoreMatchesReality(AfterCells(db.rows, cells[..p], own), cell, own);
    OtherCellsKeepLive(AfterCells(db.rows, cells[..p] + [cell], own), cells[p + 1..], own, cell, own);
  }

  lemma OneCell(rows: Rows, before: seq<Cell>, cell: Cell, ctx: Context)
    ensures AfterCells(rows, before + [cell], ctx)
         == AfterCell(AfterCells(rows, before, ctx), cell, ctx)
  {
    hide AfterCell;
    assert (before + [cell])[..|before|] == before;
  }

  // A cell whose candidates are exactly the live findings it meets counts none of them as new and
  // resolves none.
  lemma NothingNewNothingGone(rows: Rows, again: Cell, later: Context)
    requires Distinct(CellIds(again)) && LiveIn(rows, again, later) == Ids(again.candidates)
    requires again.status.CellComplete?
    ensures CellTally(rows, again, later).added == 0 && CellTally(rows, again, later).resolved == 0
  {
    hide InCell, CandidatesTally, Distinct;
    AddedAreNew(rows, again.candidates, again.detector, later);
    assert Ids(again.candidates) - rows.Keys == {};
    assert Vanished(rows, again, later) == {};
  }

  /** Meeting the same resources again in a later scan adds and resolves nothing, whatever other cells,
      scans and patches lie between, as long as no complete cell of the same account, region and
      detector does. */
  lemma RepeatingChangesNoCount(steps: seq<Step>, i: nat, p: nat, j: nat, q: nat)
    requires WellFormed(steps) && Repeats(steps, i, p, j, q)
    requires Distinct(CellIds(steps[j].cells[q]))
    ensures var tally := CellTally(Met(steps, j, q), steps[j].cells[q], steps[j].ctx);
            tally.added == 0 && tally.resolved == 0
  {
    var cell, own, again, later := steps[i].cells[p], steps[i].ctx, steps[j].cells[q], steps[j].ctx;
    hide AfterCells, CellTally, CellsIds, LiveIn, Run, Distinct;
    var early := steps[..j];
    LiveAfterScan(steps, i, p);
    assert WellFormed(early);
    assert early[..i + 1] == steps[..i + 1];
    StretchKeepsLive(early, i + 1, cell, own);
    OtherCellsKeepLive(Run(early).rows, steps[j].cells[..q], later, cell, own);
    SameTriple(Met(steps, j, q), cell, own, again, later);
    NothingNewNothingGone(Met(steps, j, q), again, later);
  }

  lemma SameTriple(rows: Rows, cell: Cell, own: Context, again: Cell, later: Context)
    requires Rivals(again, later, cell, own)
    ensures LiveIn(rows, again, later) == LiveIn(rows, cell, own)
  {
  }

  ghost predicate RepeatsEarlier(steps: seq<Step>, j: nat, q: nat) {
    exists i: nat, p: nat :: Repeats(steps, i, p, j, q)
  }

  /** A whole scan each of whose complete cells repeats an earlier one stores no new and no resolved
      finding. */
  lemma RepeatedScanCountsNothing(steps: seq<Step>, j: nat)
    requires WellFormed(steps) && j < |steps| && steps[j].ScanStep?
    requires Distinct(CellsIds(steps[j].cells))
    requires forall q :: 0 <= q < |steps[j].cells| && steps[j].cells[q].status.CellComplete? ==>
               RepeatsEarlier(steps, j, q)
    ensures var tally := CellsTally(Run(steps[..j]).rows, steps[j].cells, steps[j].ctx);
            tally.added == 0 && tally.resolved == 0
  {
    RepeatedCellsCountNothing(steps, j, |steps[j].cells|);
    assert steps[j].cells[..|steps[j].cells|] == steps[j].cells;
  }

  lemma {:induction false} RepeatedCellsCountNothing(steps: seq<Step>, j: nat, n: nat)
    requires WellFormed(steps) && j < |steps| && steps[j].ScanStep? && n <= |steps[j].cells|
    requires Distinct(CellsIds(steps[j].cells))
    requires forall q :: 0 <= q < n && steps[j].cells[q].status.CellComplete? ==>
               RepeatsEarlier(steps, j, q)
    ensures var tally := CellsTally(Run(steps[..j]).rows, steps[j].cells[..n], steps[j].ctx);
            tally.added == 0 && tally.resolved == 0
  {
    if n > 0 {
      hide CellsTally, Met, RepeatsEarlier, Run, CellsIds, Distinct, WellFormed;
      RepeatedCellsCountNothing(steps, j, n - 1);
      OneMoreCount(steps, j, n - 1);
      RepeatedCellCountsNothing(steps, j, n - 1);
    }
  }

  lemma OneMoreCount(steps: seq<Step>, j: nat, q: nat)
    requires j < |steps| && steps[j].ScanStep? && q < |steps[j].cells|
    ensures var cells, ctx, rows := steps[j].cells, steps[j].ctx, Run(steps[..j]).rows;
            CellsTally(rows, cells[..q + 1], ctx)
            == CellsTally(rows, cells[..q], ctx).Plus(CellTally(Met(steps, j, q), cells[q], ctx))
  {
    hide CellTally, Run;
    assert steps[j].cells[..q + 1][..q] == steps[j].cells[..q];
  }

  lemma RepeatedCellCountsNothing(steps: seq<Step>, j: nat, q: nat)
    requires WellFormed(steps) && j < |steps| && steps[j].ScanStep? && q < |steps[j].cells|
    requires Distinct(CellsIds(steps[j].cells))
    requires steps[j].cells[q].status.CellComplete? ==> RepeatsEarlier(steps, j, q)
    ensures var tally := CellTally(Met(steps, j, q), steps[j].cells[q], steps[j].ctx);
            tally.added == 0 && tally.resolved == 0
  {
    if steps[j].cells[q].status.CellComplete? {
      var i: nat, p: nat :| Repeats(steps, i, p, j, q);
      DistinctCell(steps[j].cells, q);
      hide CellTally, Repeats, Run, Met;
      RepeatingChangesNoCount(steps, i, p, j, q);
    }
  }

  lemma {:induction false} DistinctCell(cells: seq<Cell>, q: nat)
    requires q < |cells| && Distinct(CellsIds(cells))
    ensures Distinct(CellIds(cells[q]))
  {
    hide CellIds;
    var n := |cells| - 1;
    DistinctParts(CellsIds(cells[..n]), CellIds(cells[n]));
    if q < n {
      DistinctCell(cells[..n], q);
    }
  }
}
