/** What a finding's counters and dates say about its history, stated on the history itself. */
module Replay {
  import opened Domain
  import opened Classification
  import opened History
  import opened Scans
  import opened Runs

  // One complete cell of the finding's account, region and detector, and whether it reported it.
  datatype Sighting = Sighting(at: Time, seen: bool)

  function SightingsOf(e: Event): seq<Sighting> {
    match e
    case Seen(_, _, ctx) => [Sighting(ctx.at, true)]
    case Missed(at) => [Sighting(at, false)]
    case Patched(_, _, _) => []
  }

  function Sightings(events: seq<Event>): seq<Sighting> {
    if |events| == 0 then []
    else Sightings(events[..|events|-1]) + SightingsOf(events[|events|-1])
  }

  predicate EverSeen(h: seq<Sighting>) {
    exists k :: 0 <= k < |h| && h[k].seen
  }

  function FirstSeen(h: seq<Sighting>): (k: nat)
    requires EverSeen(h)
    ensures k < |h| && h[k].seen && forall j :: 0 <= j < k ==> !h[j].seen
  {
    if EverSeen(h[..|h|-1]) then FirstSeen(h[..|h|-1]) else |h| - 1
  }

  function LastSeen(h: seq<Sighting>): (k: nat)
    requires EverSeen(h)
    ensures k < |h| && h[k].seen && forall j :: k < j < |h| ==> !h[j].seen
  {
    if h[|h|-1].seen then |h| - 1 else LastSeen(h[..|h|-1])
  }

  // Where the unbroken run of sightings that ends at j begins.
  function RunStart(h: seq<Sighting>, j: nat): (i: nat)
    requires j < |h| && h[j].seen
    ensures i <= j && (forall k :: i <= k <= j ==> h[k].seen) && (i > 0 ==> !h[i - 1].seen)
  {
    if j > 0 && h[j - 1].seen then RunStart(h, j - 1) else j
  }

  function Positives(h: seq<Sighting>): nat {
    if |h| == 0 then 0 else Positives(h[..|h|-1]) + if h[|h|-1].seen then 1 else 0
  }

  // The row's columns, read off the history: first, last and run start are the dates of the
  // sightings they name, the consecutive count is the length of the trailing run, and the row is
  // resolved exactly when the history goes on after the last sighting.
  ghost predicate Summarises(row: Row, h: seq<Sighting>)
    requires EverSeen(h)
  {
    var last := LastSeen(h);
    var gone := last + 1 < |h|;
    && row.firstObservedAt == h[FirstSeen(h)].at
    && row.lastObservedAt == h[last].at
    && row.streakStartedAt == h[RunStart(h, last)].at
    && row.observationCount == Positives(h)
    && row.consecutive == (if gone then 0 else last - RunStart(h, last) + 1)
    && (row.status.Resolved? <==> gone)
    && row.resolvedAt == (if gone then Some(h[last + 1].at) else None)
    && (row.status.Dismissed? ==> row.dismissedAt.Some?)
  }

  lemma {:induction false} RunStartOfPrefix(h: seq<Sighting>, x: Sighting, j: nat)
    requires j < |h| && h[j].seen
    ensures RunStart(h + [x], j) == RunStart(h, j)
  {
    if j > 0 && h[j - 1].seen {
      RunStartOfPrefix(h, x, j - 1);
    }
  }

  lemma {:induction false} NothingSeen(h: seq<Sighting>)
    ensures !EverSeen(h) ==> Positives(h) == 0
  {
    if |h| > 0 {
      NothingSeen(h[..|h|-1]);
    }
  }

  // How one more sighting moves the landmarks of a history.
  lemma Extend(h: seq<Sighting>, x: Sighting)
    ensures EverSeen(h + [x]) <==> EverSeen(h) || x.seen
    ensures Positives(h + [x]) == Positives(h) + if x.seen then 1 else 0
    ensures EverSeen(h) ==> FirstSeen(h + [x]) == FirstSeen(h)
    ensures !EverSeen(h) && x.seen ==> FirstSeen(h + [x]) == |h| && Positives(h) == 0
    ensures x.seen ==> LastSeen(h + [x]) == |h|
    ensures !x.seen && EverSeen(h) ==> LastSeen(h + [x]) == LastSeen(h)
    ensures EverSeen(h) ==> RunStart(h + [x], LastSeen(h)) == RunStart(h, LastSeen(h))
    ensures x.seen ==>
              var joins := EverSeen(h) && LastSeen(h) == |h| - 1;
              RunStart(h + [x], |h|) == if joins then RunStart(h, |h| - 1) else |h|
  {
    var g := h + [x];
    assert g[..|g|-1] == h && g[|h|] == x;
    assert forall k :: 0 <= k < |h| ==> g[k] == h[k];
    NothingSeen(h);
    if EverSeen(h) {
      assert g[FirstSeen(h)].seen;
      RunStartOfPrefix(h, x, LastSeen(h));
    }
  }

  lemma SeenSummary(prev: Option<Row>, h: seq<Sighting>, c: Candidate, detector: DetectorType,
                    ctx: Context)
    requires prev.Some? <==> EverSeen(h)
    requires prev.Some? ==> Summarises(prev.value, h)
    ensures EverSeen(h + [Sighting(ctx.at, true)])
    ensures Summarises(Observed(prev, c, detector, ctx), h + [Sighting(ctx.at, true)])
  {
    hide Persistence, Risk;
    Extend(h, Sighting(ctx.at, true));
  }

  lemma MissedSummary(prev: Row, h: seq<Sighting>, at: Time)
    requires EverSeen(h) && Summarises(prev, h)
    ensures EverSeen(h + [Sighting(at, false)])
    ensures Summarises(Resolve(prev, at), h + [Sighting(at, false)])
  {
    Extend(h, Sighting(at, false));
  }

  /** The fold of any events is summarised by their sightings; there is a row exactly when one of
      them is positive. */
  lemma {:induction false} FoldSummary(events: seq<Event>)
    ensures var row, h := Fold(None, events), Sightings(events);
            && (row.Some? <==> EverSeen(h))
            && (row.Some? ==> Summarises(row.value, h))
  {
    if |events| > 0 {
      hide Observed, Resolve, Summarises;
      var rest, e := events[..|events|-1], events[|events|-1];
      FoldSummary(rest);
      var prev, h := Fold(None, rest), Sightings(rest);
      match e {
        case Seen(c, detector, ctx) =>
          SeenSummary(prev, h, c, detector, ctx);
        case Missed(at) =>
          Extend(h, Sighting(at, false));
          if prev.Some? {
            MissedSummary(prev.value, h, at);
          }
        case Patched(target, reason, now) =>
          assert Sightings(events) == h;
          if prev.Some? {
            PatchSummary(prev.value, h, target, reason, now);
          }
      }
    }
  }

  lemma PatchSummary(prev: Row, h: seq<Sighting>, target: FindingStatus, reason: Option<string>,
                     now: Time)
    requires EverSeen(h) && Summarises(prev, h)
    ensures Patch(prev, target, reason, now).Some? ==>
              Summarises(Patch(prev, target, reason, now).value, h)
  {
  }

  // ---- order in time ----------------------------------------------------------------------

  ghost predicate Ordered(h: seq<Sighting>) {
    forall i, j :: 0 <= i <= j < |h| ==> h[i].at <= h[j].at
  }

  lemma {:induction false} CellsSightings(cells: seq<Cell>, ctx: Context, id: Identity)
    ensures forall x :: x in Sightings(CellsEvents(cells, ctx, id)) ==> x.at == ctx.at
  {
    if |cells| > 0 {
      var n := |cells| - 1;
      CellsSightings(cells[..n], ctx, id);
      SightingsAppend(CellsEvents(cells[..n], ctx, id), CellEvents(cells[n], ctx, id));
      OneCellSightings(cells[n], ctx, id);
    }
  }

  lemma OneCellSightings(cell: Cell, ctx: Context, id: Identity)
    ensures forall x :: x in Sightings(CellEvents(cell, ctx, id)) ==> x.at == ctx.at
  {
    var events := CellEvents(cell, ctx, id);
    if |events| > 0 {
      assert events[..0] == [];
    }
  }

  lemma {:induction false} SightingsAppend(a: seq<Event>, b: seq<Event>)
    ensures Sightings(a + b) == Sightings(a) + Sightings(b)
  {
    if |b| == 0 {
      assert a + b == a;
    } else {
      assert (a + b)[..|a + b|-1] == a + b[..|b|-1];
      SightingsAppend(a, b[..|b|-1]);
    }
  }

  lemma StepSightings(step: Step, id: Identity)
    ensures forall x :: x in Sightings(StepEvents(step, id)) ==>
              step.ScanStep? && x.at == step.ctx.at
    ensures !step.ScanStep? ==> Sightings(StepEvents(step, id)) == []
  {
    if step.ScanStep? {
      CellsSightings(step.cells, step.ctx, id);
    } else if step.PatchStep? && step.id == id {
      assert StepEvents(step, id)[..0] == [];
    }
  }

  lemma PatchIsNoSighting(step: Step, id: Identity)
    requires step.PatchStep?
    ensures Sightings(StepEvents(step, id)) == []
  {
    if step.id == id {
      assert StepEvents(step, id)[..0] == [];
    }
  }

  lemma {:induction false} HistoryIsOrdered(steps: seq<Step>, id: Identity)
    requires WellFormed(steps)
    ensures Ordered(Sightings(Events(steps, id)))
    ensures forall x :: x in Sightings(Events(steps, id)) ==>
              exists i :: 0 <= i < |steps| && steps[i].ScanStep? && steps[i].ctx.at == x.at
  {
    if |steps| > 0 {
      hide StepEvents, Sightings;
      var rest, last := steps[..|steps|-1], steps[|steps|-1];
      WellFormedPrefix(steps);
      HistoryIsOrdered(rest, id);
      SightingsAppend(Events(rest, id), StepEvents(last, id));
      StepSightings(last, id);
      hide Events;
      var h, more := Sightings(Events(rest, id)), Sightings(StepEvents(last, id));
      forall x: Sighting | x in h + more
        ensures exists i :: 0 <= i < |steps| && steps[i].ScanStep? && steps[i].ctx.at == x.at
      {
        if x in h {
          var i :| 0 <= i < |rest| && rest[i].ScanStep? && rest[i].ctx.at == x.at;
          assert steps[i] == rest[i];
        } else {
          assert steps[|steps|-1] == last;
        }
      }
      if last.ScanStep? {
        forall x | x in h
          ensures x.at <= last.ctx.at
        {
          var i :| 0 <= i < |rest| && rest[i].ScanStep? && rest[i].ctx.at == x.at;
          assert steps[i] == rest[i] && steps[|steps|-1] == last;
        }
        OrderedExtends(h, more, last.ctx.at);
      } else {
        assert h + more == h;
      }
    }
  }

  lemma OrderedExtends(h: seq<Sighting>, more: seq<Sighting>, at: Time)
    requires Ordered(h) && (forall x :: x in h ==> x.at <= at)
    requires forall x :: x in more ==> x.at == at
    ensures Ordered(h + more)
  {
    forall i, j | 0 <= i <= j < |h + more|
      ensures (h + more)[i].at <= (h + more)[j].at
    {
      if j >= |h| {
        assert more[j - |h|] in more;
        if i < |h| {
          assert h[i] in h;
        } else {
          assert more[i - |h|] in more;
        }
      }
    }
  }

  // ---- the observation log ----------------------------------------------------------------

  function CountLog(log: seq<Observation>, id: Identity): nat {
    if |log| == 0 then 0
    else CountLog(log[..|log|-1], id) + if log[|log|-1].identity == id then 1 else 0
  }

  function CountIds(ids: seq<Identity>, id: Identity): nat {
    if |ids| == 0 then 0
    else CountIds(ids[..|ids|-1], id) + if ids[|ids|-1] == id then 1 else 0
  }

  lemma {:induction false} CountLogAppend(a: seq<Observation>, b: seq<Observation>, id: Identity)
    ensures CountLog(a + b, id) == CountLog(a, id) + CountLog(b, id)
  {
    if |b| == 0 {
      assert a + b == a;
    } else {
      assert (a + b)[..|a + b|-1] == a + b[..|b|-1];
      CountLogAppend(a, b[..|b|-1], id);
    }
  }

  lemma {:induction false} CountKeyed(log: seq<Observation>, ids: seq<Identity>, scan: ScanId,
                                      id: Identity)
    requires Keyed(log, ids, scan)
    ensures CountLog(log, id) == CountIds(ids, id)
  {
    if |log| > 0 {
      CountKeyed(log[..|log|-1], ids[..|ids|-1], scan, id);
    }
  }

  lemma {:induction false} CountDistinct(ids: seq<Identity>, id: Identity)
    requires Distinct(ids)
    ensures CountIds(ids, id) == if id in ids then 1 else 0
  {
    if |ids| > 0 {
      var n := |ids| - 1;
      CountDistinct(ids[..n], id);
      assert ids == ids[..n] + [ids[n]];
      assert ids[n] !in ids[..n];
    }
  }

  lemma {:induction false} PositivesAppend(a: seq<Sighting>, b: seq<Sighting>)
    ensures Positives(a + b) == Positives(a) + Positives(b)
  {
    if |b| == 0 {
      assert a + b == a;
    } else {
      assert (a + b)[..|a + b|-1] == a + b[..|b|-1];
      PositivesAppend(a, b[..|b|-1]);
    }
  }

  // In one cell, an identity is logged once when it is seen and never otherwise.
  lemma CellLogCounts(rows: Rows, cell: Cell, ctx: Context, id: Identity)
    requires Distinct(CellIds(cell))
    ensures CountLog(CellLog(rows, cell, ctx), id) == Positives(Sightings(CellEvents(cell, ctx, id)))
  {
    CellPositives(cell, ctx, id);
    IdsOfCandidates(cell.candidates, id);
    hide Observed, ObservationOf, CellLog, Sightings, CellEvents, Positives, CandidateIds, Ids;
    CellLogKeys(rows, cell, ctx);
    CountKeyed(CellLog(rows, cell, ctx), CellIds(cell), ctx.scan, id);
    CountDistinct(CellIds(cell), id);
  }

  lemma IdsOfCandidates(candidates: seq<Candidate>, id: Identity)
    ensures id in CandidateIds(candidates) <==> id in Ids(candidates)
  {
    forall k | 0 <= k < |candidates|
      ensures CandidateIds(candidates)[k] in Ids(candidates)
    {
      assert candidates[k] in candidates;
    }
    if id in Ids(candidates) {
      var k :| 0 <= k < |candidates| && candidates[k].identity == id;
      assert CandidateIds(candidates)[k] == id;
    }
  }

  lemma CellPositives(cell: Cell, ctx: Context, id: Identity)
    ensures Positives(Sightings(CellEvents(cell, ctx, id)))
         == if cell.status.CellComplete? && id in Ids(cell.candidates) then 1 else 0
  {
    hide Ids;
    var events := CellEvents(cell, ctx, id);
    if |events| > 0 {
      assert events[..0] == [];
      assert Sightings(events) == SightingsOf(events[0]);
      assert Sightings(events)[..0] == [];
    }
  }

  lemma {:induction false} CellsLogCounts(rows: Rows, cells: seq<Cell>, ctx: Context, id: Identity)
    requires Distinct(CellsIds(cells))
    ensures CountLog(CellsLog(rows, cells, ctx), id)
         == Positives(Sightings(CellsEvents(cells, ctx, id)))
  {
    if |cells| > 0 {
      hide CellLog, CellEvents, AfterCells, CellIds;
      var rest, cell := cells[..|cells|-1], cells[|cells|-1];
      DistinctParts(CellsIds(rest), CellIds(cell));
      CellsLogCounts(rows, rest, ctx, id);
      CellLogCounts(AfterCells(rows, rest, ctx), cell, ctx, id);
      CountLogAppend(CellsLog(rows, rest, ctx), CellLog(AfterCells(rows, rest, ctx), cell, ctx), id);
      SightingsAppend(CellsEvents(rest, ctx, id), CellEvents(cell, ctx, id));
      PositivesAppend(Sightings(CellsEvents(rest, ctx, id)), Sightings(CellEvents(cell, ctx, id)));
    }
  }

  lemma {:induction false} LogCountsPositives(steps: seq<Step>, id: Identity)
    requires WellFormed(steps)
    ensures CountLog(Run(steps).log, id) == Positives(Sightings(Events(steps, id)))
  {
    if |steps| > 0 {
      hide CellsLog, CellsEvents, AfterCells, CellsTally, RowsExposure, CellsIds, Commits;
      var rest, last := steps[..|steps|-1], steps[|steps|-1];
      WellFormedPrefix(steps);
      LogCountsPositives(rest, id);
      SightingsAppend(Events(rest, id), StepEvents(last, id));
      PositivesAppend(Sightings(Events(rest, id)), Sightings(StepEvents(last, id)));
      match last {
        case ScanStep(ctx, cells) =>
          FreshScanCommits(steps);
          if Distinct(CellsIds(cells)) {
            CellsLogCounts(Run(rest).rows, cells, ctx, id);
            CountLogAppend(Run(rest).log, CellsLog(Run(rest).rows, cells, ctx), id);
          }
        case AbortedScan =>
        case PatchStep(_, _, _, _) =>
          PatchIsNoSighting(last, id);
      }
    }
  }

  // ---- the theorem ------------------------------------------------------------------------

  /** Replay refinement: after any run of scans, aborted scans and patches, a finding exists exactly
      when some complete cell reported it, its columns summarise those cells, its observation count
      is the number of its observation rows, and its dates are in order. */
  lemma ReplayRefinement(steps: seq<Step>, id: Identity)
    requires WellFormed(steps)
    ensures var db, h := Run(steps), Sightings(Events(steps, id));
            && (id in db.rows <==> EverSeen(h))
            && (id in db.rows ==>
                  && Summarises(db.rows[id], h)
                  && db.rows[id].observationCount == CountLog(db.log, id)
                  && db.rows[id].firstObservedAt <= db.rows[id].streakStartedAt
                     <= db.rows[id].lastObservedAt)
    ensures var db := Run(steps);
            id in db.rows ==>
              && (db.rows[id].status.Resolved? <==> db.rows[id].consecutive == 0)
              && (db.rows[id].status.Resolved? <==> db.rows[id].resolvedAt.Some?)
  {
    hide Run, Events, Sightings, Fold, CountLog, Positives;
    RowIsFoldOfEvents(steps, id);
    FoldSummary(Events(steps, id));
    LogCountsPositives(steps, id);
    HistoryIsOrdered(steps, id);
    var h := Sightings(Events(steps, id));
    if EverSeen(h) {
      assert FirstSeen(h) <= RunStart(h, LastSeen(h)) <= LastSeen(h);
    }
  }
}
