/** Whole runs: scans, aborted scans and user patches applied one after the other to the database,
    and what each finding then says about its own history. */
module Runs {
  import opened Domain
  import opened History
  import opened Scans

  datatype Step =
    | ScanStep(ctx: Context, cells: seq<Cell>)
    | AbortedScan
    | PatchStep(id: Identity, target: FindingStatus, reason: Option<string>, now: Time)

  // The figures a finished scan row keeps.
  datatype Totals = Totals(tally: Tally, exposure: Exposure) {
    function Plus(other: Totals): Totals {
      Totals(tally.Plus(other.tally), exposure.Plus(other.exposure))
    }
  }

  const NO_TOTALS: Totals := Totals(Tally(0, 0, 0, 0), NO_EXPOSURE)

  datatype Db = Db(rows: Rows, log: seq<Observation>, scans: map<ScanId, Totals>)

  const EMPTY: Db := Db(map[], [], map[])

  // A scan that violates the observation key is rolled back as a whole, and so is an aborted one.
  ghost function Apply(db: Db, step: Step): Db {
    match step
    case ScanStep(ctx, cells) =>
      if !Commits(db.log, cells, ctx.scan) then db
      else
        var after := AfterCells(db.rows, cells, ctx);
        Db(after, db.log + CellsLog(db.rows, cells, ctx),
           db.scans[ctx.scan := Totals(CellsTally(db.rows, cells, ctx),
                                       RowsExposure(after, CellsIds(cells)))])
    case AbortedScan => db
    case PatchStep(id, target, reason, now) =>
      if id in db.rows && Patch(db.rows[id], target, reason, now).Some?
      then db.(rows := db.rows[id := Patch(db.rows[id], target, reason, now).value])
      else db
  }

  ghost function Run(steps: seq<Step>): Db {
    if |steps| == 0 then EMPTY else Apply(Run(steps[..|steps|-1]), steps[|steps|-1])
  }

  // Scan ids are never reused, scans start in time order, and candidates carry their cell's stamp.
  ghost predicate WellFormed(steps: seq<Step>) {
    && (forall i, c :: 0 <= i < |steps| && steps[i].ScanStep? && c in steps[i].cells ==>
          Stamped(c, steps[i].ctx))
    && (forall i, j :: 0 <= i < j < |steps| && steps[i].ScanStep? && steps[j].ScanStep? ==>
          steps[i].ctx.scan != steps[j].ctx.scan && steps[i].ctx.at <= steps[j].ctx.at)
  }

  // ---- the log only knows earlier scans ---------------------------------------------------

  lemma {:induction false} LogIsOfEarlierScans(steps: seq<Step>)
    ensures forall o :: o in Run(steps).log ==>
              exists i :: 0 <= i < |steps| && steps[i].ScanStep? && steps[i].ctx.scan == o.scan
  {
    if |steps| > 0 {
      hide AfterCells, RowsExposure, CellsTally;
      var rest, last := steps[..|steps|-1], steps[|steps|-1];
      LogIsOfEarlierScans(rest);
      forall o | o in Run(steps).log
        ensures exists i :: 0 <= i < |steps| && steps[i].ScanStep? && steps[i].ctx.scan == o.scan
      {
        if o in Run(rest).log {
          var i :| 0 <= i < |rest| && rest[i].ScanStep? && rest[i].ctx.scan == o.scan;
          assert steps[i] == rest[i];
        } else {
          CellsLogKeys(Run(rest).rows, last.cells, last.ctx);
          assert last == steps[|steps|-1] && last.ctx.scan == o.scan;
        }
      }
    }
  }

  // So whether a scan gets through depends on its own cells alone.
  lemma FreshScanCommits(steps: seq<Step>)
    requires WellFormed(steps) && |steps| > 0 && steps[|steps|-1].ScanStep?
    ensures var last := steps[|steps|-1];
            Commits(Run(steps[..|steps|-1]).log, last.cells, last.ctx.scan)
            <==> Distinct(CellsIds(last.cells))
  {
    hide Run, CellsIds;
    LogIsOfEarlierScans(steps[..|steps|-1]);
  }

  lemma WellFormedPrefix(steps: seq<Step>)
    requires WellFormed(steps) && |steps| > 0
    ensures WellFormed(steps[..|steps|-1])
  {
  }

  lemma RunExtends(steps: seq<Step>, step: Step)
    ensures Run(steps + [step]) == Apply(Run(steps), step)
  {
    hide Apply;
    assert (steps + [step])[..|steps|] == steps;
  }

  lemma WellFormedExtends(steps: seq<Step>, step: Step)
    requires WellFormed(steps)
    requires step.ScanStep? ==>
               && (forall c :: c in step.cells ==> Stamped(c, step.ctx))
               && forall i :: 0 <= i < |steps| && steps[i].ScanStep? ==>
                    steps[i].ctx.scan != step.ctx.scan && steps[i].ctx.at <= step.ctx.at
    ensures WellFormed(steps + [step])
  {
  }

  // ---- locality: a row is the fold of its own events --------------------------------------

  function CellsEvents(cells: seq<Cell>, ctx: Context, id: Identity): seq<Event> {
    if |cells| == 0 then []
    else CellsEvents(cells[..|cells|-1], ctx, id) + CellEvents(cells[|cells|-1], ctx, id)
  }

  ghost function StepEvents(step: Step, id: Identity): seq<Event> {
    match step
    case ScanStep(ctx, cells) =>
      if Distinct(CellsIds(cells)) then CellsEvents(cells, ctx, id) else []
    case AbortedScan => []
    case PatchStep(target, status, reason, now) =>
      if target == id then [Patched(status, reason, now)] else []
  }

  // Everything that ever happened to one identity.
  ghost function Events(steps: seq<Step>, id: Identity): seq<Event> {
    if |steps| == 0 then []
    else Events(steps[..|steps|-1], id) + StepEvents(steps[|steps|-1], id)
  }

  lemma {:induction false} FoldAppend(prev: Option<Row>, a: seq<Event>, b: seq<Event>)
    ensures Fold(prev, a + b) == Fold(Fold(prev, a), b)
  {
    hide Next;
    if |b| == 0 {
      assert a + b == a;
    } else {
      assert (a + b)[..|a + b|-1] == a + b[..|b|-1];
      FoldAppend(prev, a, b[..|b|-1]);
    }
  }

  lemma {:induction false} LookupAfterCells(rows: Rows, cells: seq<Cell>, ctx: Context,
                                            id: Identity)
    ensures Lookup(AfterCells(rows, cells, ctx), id)
         == Fold(Lookup(rows, id), CellsEvents(cells, ctx, id))
  {
    if |cells| > 0 {
      hide Next, CellEvents, AfterCell;
      var rest, cell := cells[..|cells|-1], cells[|cells|-1];
      LookupAfterCells(rows, rest, ctx, id);
      LookupAfterCell(AfterCells(rows, rest, ctx), cell, ctx, id);
      var events := CellEvents(cell, ctx, id);
      FoldAppend(Lookup(rows, id), CellsEvents(rest, ctx, id), events);
      AtMostOneEvent(cell, ctx, id);
      if |events| == 1 {
        assert events[..0] == [];
      }
    }
  }

  lemma AtMostOneEvent(cell: Cell, ctx: Context, id: Identity)
    ensures |CellEvents(cell, ctx, id)| <= 1
  {
  }

  /** Locality: whatever scans and patches do to the store as a whole, the row of an identity is the
      fold of the events of that identity, in order. */
  lemma {:induction false} RowIsFoldOfEvents(steps: seq<Step>, id: Identity)
    requires WellFormed(steps)
    ensures Lookup(Run(steps).rows, id) == Fold(None, Events(steps, id))
  {
    if |steps| > 0 {
      hide Next, CellsEvents, AfterCells, CellsLog, CellsTally, RowsExposure, Commits, Distinct;
      var rest, last := steps[..|steps|-1], steps[|steps|-1];
      WellFormedPrefix(steps);
      RowIsFoldOfEvents(rest, id);
      FoldAppend(None, Events(rest, id), StepEvents(last, id));
      match last {
        case ScanStep(ctx, cells) =>
          FreshScanCommits(steps);
          LookupAfterCells(Run(rest).rows, cells, ctx, id);
        case AbortedScan =>
        case PatchStep(_, _, _, _) =>
          PatchIsNext(Run(rest), last, id);
      }
    }
  }

  lemma PatchIsNext(db: Db, step: Step, id: Identity)
    requires step.PatchStep?
    ensures Lookup(Apply(db, step).rows, id) == Fold(Lookup(db.rows, id), StepEvents(step, id))
  {
    var events := StepEvents(step, id);
    if step.id == id {
      assert events[..0] == [];
    }
  }
}
