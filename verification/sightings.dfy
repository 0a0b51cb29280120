/** What one cell does to each row, column by column, and what a row therefore shows at any later time
    of a run: the candidate of the last committed cell that reported the finding. */
module Sightings {
  import opened Domain
  import opened Classification
  import opened History
  import opened Scans
  import opened Runs
  import Cells

  // ---- one cell ---------------------------------------------------------------------------

  // The columns that only repeat what a candidate says.
  ghost predicate Shows(row: Row, c: Candidate) {
    && row.facts == c.facts && row.dependencies == c.dependencies
    && row.ownership == c.ownership && row.ignoreReason == c.ignoreReason
    && (c.price.None? ==> row.confidence.UnavailableCost? && row.monthly.None?)
    && (c.price.Some? ==>
          row.confidence == c.price.value.confidence && row.monthly == c.price.value.monthly)
  }

  predicate DismissedIn(rows: Rows, id: Identity) {
    id in rows && rows[id].status.Dismissed?
  }

  predicate LiveRow(rows: Rows, id: Identity) {
    id in rows && !rows[id].status.Resolved?
  }

  lemma CandidateIsPicked(rows: Rows, cell: Cell, ctx: Context, k: nat)
    requires cell.status.CellComplete? && Distinct(CellIds(cell)) && k < |cell.candidates|
    ensures var id := cell.candidates[k].identity;
            Lookup(AfterCell(rows, cell, ctx), id)
            == Some(Observed(Lookup(rows, id), cell.candidates[k], cell.detector, ctx))
  {
    hide Observed;
    PickIsUnique(cell.candidates, k);
    LookupAfterCell(rows, cell, ctx, cell.candidates[k].identity);
  }

  /** The row a candidate leaves behind shows the candidate. It stays dismissed if it was; otherwise it
      is ignored or open as the candidate says, and in either case not resolved. */
  lemma SightingShowsCandidate(rows: Rows, cell: Cell, ctx: Context, k: nat)
    requires cell.status.CellComplete? && Distinct(CellIds(cell)) && k < |cell.candidates|
    ensures var c, after := cell.candidates[k], AfterCell(rows, cell, ctx);
            var dismissed := DismissedIn(rows, c.identity);
            && c.identity in after
            && Shows(after[c.identity], c)
            && (after[c.identity].status.Dismissed? <==> dismissed)
            && (after[c.identity].status.Ignored? <==> !dismissed && c.ignored)
            && (after[c.identity].status.Open? <==> !dismissed && !c.ignored)
  {
    CandidateIsPicked(rows, cell, ctx, k);
    hide AfterCell;
  }

  /** Its dates and counters: a first sighting starts them, a live finding's streak goes on, a resolved
      one's starts again, and what the user left behind is kept. */
  lemma SightingCounts(rows: Rows, cell: Cell, ctx: Context, k: nat)
    requires cell.status.CellComplete? && Distinct(CellIds(cell)) && k < |cell.candidates|
    requires cell.candidates[k].identity in AfterCell(rows, cell, ctx)
    ensures var id := cell.candidates[k].identity;
            var row := AfterCell(rows, cell, ctx)[id];
            && row.lastObservedAt == ctx.at && row.lastScan == ctx.scan && row.updatedAt == ctx.at
            && (id in rows ==>
                  && row.firstObservedAt == rows[id].firstObservedAt
                  && row.firstScan == rows[id].firstScan && row.createdAt == rows[id].createdAt
                  && row.observationCount == rows[id].observationCount + 1
                  && row.dismissedAt == rows[id].dismissedAt
                  && row.dismissReason == rows[id].dismissReason)
            && (id !in rows ==>
                  && row.firstObservedAt == ctx.at && row.firstScan == ctx.scan
                  && row.createdAt == ctx.at && row.observationCount == 1
                  && row.dismissedAt.None? && row.dismissReason.None?)
            && (LiveRow(rows, id) ==>
                  && row.streakStartedAt == rows[id].streakStartedAt
                  && row.consecutive == rows[id].consecutive + 1
                  && row.resolvedAt == rows[id].resolvedAt)
            && (!LiveRow(rows, id) ==>
                  row.streakStartedAt == ctx.at && row.consecutive == 1 && row.resolvedAt.None?)
  {
    CandidateIsPicked(rows, cell, ctx, k);
    hide AfterCell, Persistence, Risk;
  }

  /** Its persistence and risk follow from its own streak and from what the candidate says. */
  lemma SightingClassifies(rows: Rows, cell: Cell, ctx: Context, k: nat)
    requires cell.status.CellComplete? && Distinct(CellIds(cell)) && k < |cell.candidates|
    requires cell.candidates[k].identity in AfterCell(rows, cell, ctx)
    ensures var c := cell.candidates[k];
            var row := AfterCell(rows, cell, ctx)[c.identity];
            var blocked := exists d :: d in c.dependencies && d.blocksRemediation;
            && (row.persistence.Persistent? <==>
                  && ctx.at - row.streakStartedAt
                     >= ctx.settings.Threshold(c.identity.detector) * 86_400_000_000
                  && row.consecutive >= ctx.settings.minConsecutive)
            && (row.risk.High? <==> c.ownership.Confirmed? || blocked)
            && (row.risk.Low? <==>
                  && (cell.detector.UnattachedEbsVolume? || cell.detector.UnassociatedElasticIp?)
                  && row.persistence.Persistent? && c.ownership.Unknown? && !blocked)
  {
    CandidateIsPicked(rows, cell, ctx, k);
    hide AfterCell, Persistence, Risk;
    var c := cell.candidates[k];
    var row := AfterCell(rows, cell, ctx)[c.identity];
    PersistentExactly(c.identity.detector, row.streakStartedAt, ctx.at, row.consecutive,
                      ctx.settings);
    RiskExactly(cell.detector, row.persistence, c.ownership, c.dependencies);
  }

  /** Every other row: a live finding of a complete cell that no candidate names is resolved, keeping
      all columns but four, and nothing else changes. */
  lemma UnsightedExactly(rows: Rows, cell: Cell, ctx: Context, id: Identity)
    requires cell.status.CellComplete? ==> id !in Ids(cell.candidates)
    ensures var after := AfterCell(rows, cell, ctx);
            var gone := && cell.status.CellComplete? && LiveRow(rows, id)
                        && id.account == ctx.account && id.region == cell.region
                        && id.detector == cell.detector;
            && (id in after <==> id in rows)
            && (id in rows && !gone ==> after[id] == rows[id])
            && (gone ==>
                  && after[id].status.Resolved? && after[id].resolvedAt == Some(ctx.at)
                  && after[id].consecutive == 0 && after[id].updatedAt == ctx.at
                  && after[id] == rows[id].(status := after[id].status,
                                            resolvedAt := after[id].resolvedAt,
                                            consecutive := after[id].consecutive,
                                            updatedAt := after[id].updatedAt))
  {
    LookupAfterCell(rows, cell, ctx, id);
  }

  // ---- the counters -----------------------------------------------------------------------

  // The candidates that leave an ignored row: those that say so of a finding not dismissed.
  function IgnoredNow(rows: Rows, candidates: seq<Candidate>): set<int> {
    set k | 0 <= k < |candidates| && candidates[k].ignored
            && !DismissedIn(rows, candidates[k].identity)
  }

  predicate PersistentIn(rows: Rows, id: Identity) {
    id in rows && rows[id].persistence.Persistent?
  }

  function PersistentNow(after: Rows, candidates: seq<Candidate>): set<int> {
    set k | 0 <= k < |candidates| && PersistentIn(after, candidates[k].identity)
  }

  // Adding the index n to a set of smaller ones.
  lemma OneMoreIndex(some: set<int>, all: set<int>, n: int)
    requires n !in some && all - {n} == some
    ensures |all| == |some| + if n in all then 1 else 0
  {
    if n in all {
      assert all == some + {n};
    } else {
      assert all == some;
    }
  }

  lemma OneMoreIgnored(rows: Rows, candidates: seq<Candidate>)
    requires |candidates| > 0
    ensures var n := |candidates| - 1;
            var c := candidates[n];
            |IgnoredNow(rows, candidates)|
            == |IgnoredNow(rows, candidates[..n])|
               + if c.ignored && !DismissedIn(rows, c.identity) then 1 else 0
  {
    hide DismissedIn;
    var n := |candidates| - 1;
    var c := candidates[n];
    var all := IgnoredNow(rows, candidates);
    assert n in all <==> c.ignored && !DismissedIn(rows, c.identity);
    OneMoreIndex(IgnoredNow(rows, candidates[..n]), all, n);
  }

  lemma {:induction false} CountIgnored(rows: Rows, candidates: seq<Candidate>,
                                        detector: DetectorType, ctx: Context)
    ensures CandidatesTally(rows, candidates, detector, ctx).ignored
         == |IgnoredNow(rows, candidates)|
  {
    if |candidates| > 0 {
      OneMoreIgnored(rows, candidates);
      hide CandidateTally, IgnoredNow, DismissedIn;
      var n := |candidates| - 1;
      CountIgnored(rows, candidates[..n], detector, ctx);
      IgnoredRow(rows, candidates[n], detector, ctx);
    }
  }

  lemma IgnoredRow(rows: Rows, c: Candidate, detector: DetectorType, ctx: Context)
    ensures CandidateTally(rows, c, detector, ctx).ignored
         == if c.ignored && !DismissedIn(rows, c.identity) then 1 else 0
  {
    hide Persistence, Risk;
  }

  ghost predicate Leaves(rows: Rows, c: Candidate, detector: DetectorType, ctx: Context, after: Rows)
  {
    Lookup(after, c.identity) == Some(Observed(Lookup(rows, c.identity), c, detector, ctx))
  }

  lemma OneMorePersistent(after: Rows, candidates: seq<Candidate>)
    requires |candidates| > 0
    ensures var n := |candidates| - 1;
            |PersistentNow(after, candidates)|
            == |PersistentNow(after, candidates[..n])|
               + if PersistentIn(after, candidates[n].identity) then 1 else 0
  {
    hide PersistentIn;
    var n := |candidates| - 1;
    var all := PersistentNow(after, candidates);
    assert n in all <==> PersistentIn(after, candidates[n].identity);
    OneMoreIndex(PersistentNow(after, candidates[..n]), all, n);
  }

  lemma {:induction false} CountPersistent(rows: Rows, candidates: seq<Candidate>,
                                           detector: DetectorType, ctx: Context, after: Rows)
    requires forall k :: 0 <= k < |candidates| ==> Leaves(rows, candidates[k], detector, ctx, after)
    ensures CandidatesTally(rows, candidates, detector, ctx).persistent
         == |PersistentNow(after, candidates)|
  {
    hide Leaves, CandidateTally, PersistentIn;
    if |candidates| > 0 {
      OneMorePersistent(after, candidates);
      hide PersistentNow;
      var n := |candidates| - 1;
      assert Leaves(rows, candidates[n], detector, ctx, after);
      CountPersistent(rows, candidates[..n], detector, ctx, after);
      PersistentRow(rows, candidates[n], detector, ctx, after);
    }
  }

  lemma PersistentRow(rows: Rows, c: Candidate, detector: DetectorType, ctx: Context, after: Rows)
    requires Leaves(rows, c, detector, ctx, after)
    ensures CandidateTally(rows, c, detector, ctx).persistent
         == if PersistentIn(after, c.identity) then 1 else 0
  {
    hide Observed;
  }

  lemma CellCountsPersistent(rows: Rows, cell: Cell, ctx: Context)
    requires cell.status.CellComplete? && Distinct(CellIds(cell))
    ensures CandidatesTally(rows, cell.candidates, cell.detector, ctx).persistent
         == |PersistentNow(AfterCell(rows, cell, ctx), cell.candidates)|
  {
    forall k | 0 <= k < |cell.candidates|
      ensures Leaves(rows, cell.candidates[k], cell.detector, ctx, AfterCell(rows, cell, ctx))
    {
      CandidateIsPicked(rows, cell, ctx, k);
      hide AfterCell, Observed;
    }
    hide AfterCell, Leaves, CandidatesTally, Distinct, PersistentNow;
    CountPersistent(rows, cell.candidates, cell.detector, ctx, AfterCell(rows, cell, ctx));
  }

  function ResolvedNow(rows: Rows, cell: Cell, ctx: Context): set<Identity> {
    set id | id in rows && LiveRow(rows, id) && id !in Ids(cell.candidates)
             && id.account == ctx.account && id.region == cell.region && id.detector == cell.detector
  }

  lemma CountResolved(rows: Rows, cell: Cell, ctx: Context)
    ensures Vanished(rows, cell, ctx) == ResolvedNow(rows, cell, ctx)
  {
    hide Ids;
  }

  lemma TallyParts(rows: Rows, cell: Cell, ctx: Context)
    requires cell.status.CellComplete?
    ensures var tally := CellTally(rows, cell, ctx);
            var seen := CandidatesTally(rows, cell.candidates, cell.detector, ctx);
            && tally.added == seen.added && tally.persistent == seen.persistent
            && tally.ignored == seen.ignored
            && tally.resolved == seen.resolved + |Vanished(rows, cell, ctx)|
  {
    hide CandidatesTally, Vanished;
  }

  /** Of the counters of a complete cell, new counts the candidates without a row and resolved the live
      rows of the cell that no candidate names. */
  lemma ChangesExactly(rows: Rows, cell: Cell, ctx: Context)
    requires cell.status.CellComplete? && Distinct(CellIds(cell))
    ensures CellTally(rows, cell, ctx).added == |Ids(cell.candidates) - rows.Keys|
    ensures CellTally(rows, cell, ctx).resolved == |ResolvedNow(rows, cell, ctx)|
  {
    hide CandidatesTally, CellTally, Vanished, ResolvedNow, Ids, Distinct;
    TallyParts(rows, cell, ctx);
    Cells.AddedAreNew(rows, cell.candidates, cell.detector, ctx);
    CountResolved(rows, cell, ctx);
  }

  /** Persistent counts the candidates whose row now is persistent, and ignored those that are ignored and
      whose finding was not dismissed. */
  lemma StatesExactly(rows: Rows, cell: Cell, ctx: Context)
    requires cell.status.CellComplete? && Distinct(CellIds(cell))
    ensures CellTally(rows, cell, ctx).persistent
         == |PersistentNow(AfterCell(rows, cell, ctx), cell.candidates)|
    ensures CellTally(rows, cell, ctx).ignored == |IgnoredNow(rows, cell.candidates)|
  {
    hide CandidatesTally, CellTally, AfterCell, IgnoredNow, PersistentNow, Distinct;
    TallyParts(rows, cell, ctx);
    CountIgnored(rows, cell.candidates, cell.detector, ctx);
    CellCountsPersistent(rows, cell, ctx);
  }

  // ---- the cells of a scan ----------------------------------------------------------------

  // The k-th candidate of the p-th cell, a complete one, is about this identity.
  ghost predicate Names(cells: seq<Cell>, p: nat, k: nat, id: Identity) {
    && p < |cells| && cells[p].status.CellComplete?
    && k < |cells[p].candidates| && cells[p].candidates[k].identity == id
  }

  // What a row keeps saying about its last sighting while nothing but resolutions happens to it.
  ghost predicate Sighted(row: Row, c: Candidate, ctx: Context) {
    && Shows(row, c) && row.lastObservedAt == ctx.at && row.lastScan == ctx.scan
    && (row.status.Ignored? ==> c.ignored)
    && (row.status.Open? ==> !c.ignored)
  }

  // Unchanged in what a sighting tells, and at most resolved.
  ghost predicate Kept(before: Option<Row>, after: Option<Row>) {
    && (before.Some? <==> after.Some?)
    && (before.Some? ==>
          var was, now := before.value, after.value;
          && now.facts == was.facts && now.dependencies == was.dependencies
          && now.ownership == was.ownership && now.ignoreReason == was.ignoreReason
          && now.confidence == was.confidence && now.monthly == was.monthly
          && now.lastObservedAt == was.lastObservedAt && now.lastScan == was.lastScan
          && (now.status == was.status || now.status.Resolved?))
  }

  lemma SightedInCell(rows: Rows, cell: Cell, ctx: Context, k: nat)
    requires cell.status.CellComplete? && Distinct(CellIds(cell)) && k < |cell.candidates|
    ensures var c, after := cell.candidates[k], AfterCell(rows, cell, ctx);
            c.identity in after && Sighted(after[c.identity], c, ctx)
  {
    SightingShowsCandidate(rows, cell, ctx, k);
    SightingCounts(rows, cell, ctx, k);
    hide AfterCell, Shows;
  }

  lemma KeptByCell(rows: Rows, cell: Cell, ctx: Context, id: Identity)
    requires id !in CellIds(cell)
    ensures Kept(Lookup(rows, id), Lookup(AfterCell(rows, cell, ctx), id))
  {
    if cell.status.CellComplete? {
      NotACandidate(cell.candidates, id);
    }
    UnsightedExactly(rows, cell, ctx, id);
    hide AfterCell, CellIds;
  }

  lemma NotACandidate(candidates: seq<Candidate>, id: Identity)
    requires id !in CandidateIds(candidates)
    ensures id !in Ids(candidates)
  {
    forall c | c in candidates
      ensures c.identity != id
    {
      var k :| 0 <= k < |candidates| && candidates[k] == c;
      assert CandidateIds(candidates)[k] == c.identity;
    }
  }

  lemma {:induction false} NamedIsKey(cells: seq<Cell>, p: nat, k: nat, id: Identity)
    requires Names(cells, p, k, id)
    ensures id in CellsIds(cells)
  {
    var n := |cells| - 1;
    if p < n {
      NamedIsKey(cells[..n], p, k, id);
    } else {
      assert CellIds(cells[p])[k] == id;
    }
  }

  lemma {:induction false} KeyIsNamed(cells: seq<Cell>, id: Identity) returns (p: nat, k: nat)
    requires id in CellsIds(cells)
    ensures Names(cells, p, k, id)
  {
    var n := |cells| - 1;
    if id in CellIds(cells[n]) {
      p := n;
      k :| k < |CellIds(cells[n])| && CellIds(cells[n])[k] == id;
    } else {
      p, k := KeyIsNamed(cells[..n], id);
    }
  }

  lemma {:induction false} SightedInCells(rows: Rows, cells: seq<Cell>, ctx: Context, p: nat, k: nat,
                                          id: Identity)
    requires Distinct(CellsIds(cells)) && Names(cells, p, k, id)
    ensures var after := AfterCells(rows, cells, ctx);
            id in after && Sighted(after[id], cells[p].candidates[k], ctx)
  {
    hide AfterCell, CellIds, Distinct, Shows;
    var n := |cells| - 1;
    var rest, cell := cells[..n], cells[n];
    var before := AfterCells(rows, rest, ctx);
    DistinctParts(CellsIds(rest), CellIds(cell));
    if p < n {
      NamedIsKey(rest, p, k, id);
      assert Names(rest, p, k, id);
      SightedInCells(rows, rest, ctx, p, k, id);
      KeptByCell(before, cell, ctx, id);
      StillSighted(before, AfterCell(before, cell, ctx), rest[p].candidates[k], ctx, id);
    } else {
      hide Sighted;
      SightedInCell(before, cell, ctx, k);
    }
  }

  lemma StillSighted(before: Rows, after: Rows, c: Candidate, ctx: Context, id: Identity)
    requires id in before && Sighted(before[id], c, ctx)
    requires Kept(Lookup(before, id), Lookup(after, id))
    ensures id in after && Sighted(after[id], c, ctx)
  {
  }

  lemma {:induction false} KeptByCells(rows: Rows, cells: seq<Cell>, ctx: Context, id: Identity)
    requires id !in CellsIds(cells)
    ensures Kept(Lookup(rows, id), Lookup(AfterCells(rows, cells, ctx), id))
  {
    hide AfterCell, Sighted, CellIds;
    if |cells| > 0 {
      var rest, cell := cells[..|cells|-1], cells[|cells|-1];
      KeptByCells(rows, rest, ctx, id);
      KeptByCell(AfterCells(rows, rest, ctx), cell, ctx, id);
    }
  }

  // ---- whole runs -------------------------------------------------------------------------

  // A committed scan whose k-th candidate of the p-th cell, a complete one, is about this identity.
  ghost predicate Sees(step: Step, p: nat, k: nat, id: Identity) {
    step.ScanStep? && Distinct(CellsIds(step.cells)) && Names(step.cells, p, k, id)
  }

  ghost predicate SeesSome(step: Step, id: Identity) {
    exists p: nat, k: nat :: Sees(step, p, k, id)
  }

  // The last sighting of a run.
  ghost predicate LastSighting(steps: seq<Step>, i: nat, p: nat, k: nat, id: Identity) {
    && i < |steps| && Sees(steps[i], p, k, id)
    && forall j :: i < j < |steps| ==> !SeesSome(steps[j], id)
  }

  // The user reopened the finding at some later step.
  ghost predicate ReopenedAfter(steps: seq<Step>, i: nat, id: Identity) {
    exists j :: i < j < |steps| && steps[j].PatchStep? && steps[j].id == id && steps[j].target.Open?
  }

  lemma NotSeen(step: Step, id: Identity)
    requires step.ScanStep? && Distinct(CellsIds(step.cells)) && !SeesSome(step, id)
    ensures id !in CellsIds(step.cells)
  {
    if id in CellsIds(step.cells) {
      var p, k := KeyIsNamed(step.cells, id);
      assert Sees(step, p, k, id);
    }
  }

  // The row still tells what this candidate of the i-th step said.
  ghost predicate Told(steps: seq<Step>, i: nat, row: Row, c: Candidate, id: Identity) {
    && i < |steps| && steps[i].ScanStep? && Shows(row, c)
    && row.lastObservedAt == steps[i].ctx.at && row.lastScan == steps[i].ctx.scan
    && (row.status.Ignored? ==> c.ignored)
    && (row.status.Open? && c.ignored ==> ReopenedAfter(steps, i, id))
  }

  lemma PatchKeeps(row: Row, target: FindingStatus, reason: Option<string>, now: Time)
    ensures var next := Patch(row, target, reason, now);
            && (next.Some? ==>
                  Kept(Some(row), Some(next.value.(status := row.status)))
                  && !next.value.status.Ignored? && (next.value.status.Open? ==> target.Open?))
  {
  }

  // One more step that does not see the finding.
  lemma UnseenStep(steps: seq<Step>, id: Identity)
    requires WellFormed(steps) && |steps| > 0 && !SeesSome(steps[|steps|-1], id)
    ensures var before, after := Run(steps[..|steps|-1]).rows, Run(steps).rows;
            var last := steps[|steps|-1];
            && (id in before <==> id in after)
            && (id in before ==>
                  var row := after[id];
                  || Kept(Some(before[id]), Some(row))
                  || (&& last.PatchStep? && last.id == id && !row.status.Ignored?
                      && Kept(Some(before[id]), Some(row.(status := before[id].status)))
                      && (row.status.Open? ==> last.target.Open?)))
  {
    hide AfterCells, CellsLog, CellsTally, RowsExposure, CellsIds, SeesSome, Distinct, Kept, Patch;
    var rest, last := steps[..|steps|-1], steps[|steps|-1];
    var before := Run(rest).rows;
    assert id in before ==> Kept(Some(before[id]), Some(before[id])) by {
      KeptSame(before, id);
    }
    if last.ScanStep? {
      FreshScanCommits(steps);
      if Distinct(CellsIds(last.cells)) {
        NotSeen(last, id);
        KeptByCells(before, last.cells, last.ctx, id);
        KeptDomain(before, Run(steps).rows, id);
      }
    } else if last.PatchStep? && last.id == id && id in before {
      PatchKeeps(before[id], last.target, last.reason, last.now);
    }
  }

  lemma KeptSame(rows: Rows, id: Identity)
    ensures Kept(Lookup(rows, id), Lookup(rows, id))
  {
  }

  lemma KeptDomain(before: Rows, after: Rows, id: Identity)
    requires Kept(Lookup(before, id), Lookup(after, id))
    ensures id in before <==> id in after
    ensures id in before ==> Kept(Some(before[id]), Some(after[id]))
  {
  }

  // So it goes on telling what it told.
  lemma ToldStays(steps: seq<Step>, i: nat, c: Candidate, id: Identity)
    requires WellFormed(steps) && i < |steps| - 1 && !SeesSome(steps[|steps|-1], id)
    requires var rest := steps[..|steps|-1];
             id in Run(rest).rows && Told(rest, i, Run(rest).rows[id], c, id)
    ensures id in Run(steps).rows && Told(steps, i, Run(steps).rows[id], c, id)
  {
    UnseenStep(steps, id);
    hide Run, SeesSome, WellFormed;
    var rest, last := steps[..|steps|-1], steps[|steps|-1];
    if ReopenedAfter(rest, i, id) {
      var j :| i < j < |rest| && rest[j].PatchStep? && rest[j].id == id && rest[j].target.Open?;
      assert steps[j] == rest[j];
      assert ReopenedAfter(steps, i, id);
    }
    if last.PatchStep? && last.id == id && last.target.Open? {
      assert steps[|steps|-1] == last && ReopenedAfter(steps, i, id);
    }
  }

  // A committed scan leaves the rows its candidates name telling what they said.
  lemma ToldAtOnce(steps: seq<Step>, p: nat, k: nat, id: Identity)
    requires WellFormed(steps) && |steps| > 0 && Sees(steps[|steps|-1], p, k, id)
    ensures var i := |steps| - 1;
            && id in Run(steps).rows
            && Told(steps, i, Run(steps).rows[id], steps[i].cells[p].candidates[k], id)
  {
    hide AfterCells, CellsLog, CellsTally, RowsExposure, CellsIds, Distinct, Shows;
    var rest, last := steps[..|steps|-1], steps[|steps|-1];
    FreshScanCommits(steps);
    SightedInCells(Run(rest).rows, last.cells, last.ctx, p, k, id);
  }

  /** At any later time of any run, a finding's row shows what the candidate of its last sighting
      said: its facts, dependencies, ownership, ignore reason, confidence and cost are that candidate's
      and its last scan is that scan. It is ignored only if that candidate was, and open against that
      candidate's word only if the user reopened it since. */
  lemma {:induction false} RowShowsLastSighting(steps: seq<Step>, i: nat, p: nat, k: nat,
                                                id: Identity)
    requires WellFormed(steps) && LastSighting(steps, i, p, k, id)
    ensures id in Run(steps).rows
    ensures Told(steps, i, Run(steps).rows[id], steps[i].cells[p].candidates[k], id)
  {
    if i == |steps| - 1 {
      ToldAtOnce(steps, p, k, id);
    } else {
      var rest := steps[..|steps|-1];
      WellFormedPrefix(steps);
      assert rest[i] == steps[i] && forall j :: 0 <= j < |rest| ==> rest[j] == steps[j];
      assert LastSighting(rest, i, p, k, id);
      hide Told, Run, Sees, WellFormed;
      RowShowsLastSighting(rest, i, p, k, id);
      ToldStays(steps, i, steps[i].cells[p].candidates[k], id);
    }
  }

  lemma LastSightingStays(steps: seq<Step>, i: nat, p: nat, k: nat, id: Identity)
    requires |steps| > 0 && !SeesSome(steps[|steps|-1], id)
    requires LastSighting(steps[..|steps|-1], i, p, k, id)
    ensures LastSighting(steps, i, p, k, id)
  {
    hide SeesSome, Sees;
    var rest := steps[..|steps|-1];
    assert forall j :: 0 <= j < |rest| ==> steps[j] == rest[j];
  }

  /** And every row has a last sighting to show. */
  lemma {:induction false} RowsHaveLastSighting(steps: seq<Step>, id: Identity)
    returns (i: nat, p: nat, k: nat)
    requires WellFormed(steps) && id in Run(steps).rows
    ensures LastSighting(steps, i, p, k, id)
  {
    var n := |steps| - 1;
    assert steps != [];
    hide Run, Sees, WellFormed;
    if SeesSome(steps[n], id) {
      i := n;
      p, k :| Sees(steps[n], p, k, id);
    } else {
      hide SeesSome, LastSighting, Kept;
      UnseenStep(steps, id);
      WellFormedPrefix(steps);
      i, p, k := RowsHaveLastSighting(steps[..n], id);
      LastSightingStays(steps, i, p, k, id);
    }
  }
}
