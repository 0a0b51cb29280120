/** What reconciling one detection cell does to the findings, as functions on values: the reference
    the session's methods are proved against. */
module History {
  import opened Domain
  import opened Classification

  // ---- one finding, one observation -------------------------------------------------------

  // The row a candidate leaves behind, given the row found under its identity.
  function Observed(prev: Option<Row>, c: Candidate, detector: DetectorType, ctx: Context): Row {
    var continues := prev.Some? && !prev.value.status.Resolved?;
    var streak := if continues then prev.value.streakStartedAt else ctx.at;
    var consecutive := if continues then prev.value.consecutive + 1 else 1;
    var persistence :=
      Persistence(c.identity.detector, streak, ctx.at, consecutive, ctx.settings);
    Row(
      if continues && prev.value.status.Dismissed? then Dismissed
      else if c.ignored then Ignored else Open,
      if prev.Some? then prev.value.firstObservedAt else ctx.at, ctx.at, streak,
      if prev.Some? then prev.value.observationCount + 1 else 1, consecutive,
      persistence, Risk(detector, persistence, c.ownership, c.dependencies),
      if c.price.Some? then c.price.value.confidence else UnavailableCost,
      if c.price.Some? then c.price.value.monthly else None,
      c.ownership, c.dependencies, c.facts, c.ignoreReason,
      if continues then prev.value.resolvedAt else None,
      if prev.Some? then prev.value.dismissedAt else None,
      if prev.Some? then prev.value.dismissReason else None,
      if prev.Some? then prev.value.firstScan else ctx.scan, ctx.scan,
      if prev.Some? then prev.value.createdAt else ctx.at, ctx.at)
  }

  function Resolve(row: Row, at: Time): Row {
    if row.status.Resolved? then row
    else row.(status := Resolved, resolvedAt := Some(at), consecutive := 0, updatedAt := at)
  }

  function ObservationOf(id: Identity, row: Row, ctx: Context): Observation {
    Observation(id, ctx.scan, ctx.at, row.status, row.persistence, row.risk, row.monthly,
                row.confidence, row.facts.evidence)
  }

  // ---- one finding, one cell --------------------------------------------------------------

  // What a cell or a user does to a single finding.
  datatype Event =
    | Seen(candidate: Candidate, detector: DetectorType, ctx: Context)
    | Missed(at: Time)
    | Patched(target: FindingStatus, reason: Option<string>, now: Time)

  function Patch(row: Row, target: FindingStatus, reason: Option<string>, now: Time): Option<Row> {
    if row.status.Open? && target.Dismissed? then
      Some(row.(status := Dismissed, dismissedAt := Some(now), dismissReason := reason,
                updatedAt := now))
    else if row.status.Dismissed? && target.Open? then
      Some(row.(status := Open, dismissedAt := None, dismissReason := None, updatedAt := now))
    else None
  }

  /** Dismissing and reopening gives back the row but for its update time exactly when it carried no
      traces of an earlier dismissal. */
  lemma ReopeningUndoesDismissalExactly(row: Row, reason: Option<string>, before: Time, now: Time)
    requires row.status.Open?
    ensures var dismissed := Patch(row, Dismissed, reason, before);
            && dismissed.Some? && Patch(dismissed.value, Open, None, now).Some?
            && (Patch(dismissed.value, Open, None, now).value == row.(updatedAt := now)
                <==> row.dismissedAt.None? && row.dismissReason.None?)
  {
  }

  function Next(prev: Option<Row>, e: Event): (next: Option<Row>)
    ensures next.Some? <==> prev.Some? || e.Seen?
  {
    match e
    case Seen(c, detector, ctx) => Some(Observed(prev, c, detector, ctx))
    case Missed(at) => if prev.Some? then Some(Resolve(prev.value, at)) else None
    case Patched(target, reason, now) =>
      if prev.Some? && Patch(prev.value, target, reason, now).Some?
      then Patch(prev.value, target, reason, now) else prev
  }

  function Fold(prev: Option<Row>, events: seq<Event>): Option<Row> {
    if |events| == 0 then prev else Next(Fold(prev, events[..|events|-1]), events[|events|-1])
  }

  /** A dismissal outlives the finding's disappearance: resolved and seen again, a dismissed finding
      is open or ignored, yet still carries the date and reason of the dismissal. */
  lemma DismissalSurvivesResolution(row: Row, gone: Time, c: Candidate, detector: DetectorType,
                                    ctx: Context)
    requires row.status.Dismissed?
    ensures var back := Fold(Some(row), [Missed(gone), Seen(c, detector, ctx)]);
            && back.Some? && back.value.status == (if c.ignored then Ignored else Open)
            && back.value.dismissedAt == row.dismissedAt
            && back.value.dismissReason == row.dismissReason
            && back.value.consecutive == 1 && back.value.firstObservedAt == row.firstObservedAt
  {
    var events := [Missed(gone), Seen(c, detector, ctx)];
    assert events[..1][..0] == [] && events[..1] == [Missed(gone)];
    assert Fold(Some(row), events[..1]) == Some(Resolve(row, gone));
  }

  function Pick(candidates: seq<Candidate>, id: Identity): (c: Candidate)
    requires id in Ids(candidates)
    ensures c in candidates && c.identity == id
  {
    var last := candidates[|candidates|-1];
    if last.identity == id then last
    else
      assert id in Ids(candidates[..|candidates|-1]) by {
        var k :| 0 <= k < |candidates| && candidates[k].identity == id;
        assert candidates[..|candidates|-1][k] == candidates[k];
      }
      Pick(candidates[..|candidates|-1], id)
  }

  // What one cell means for one identity: nothing unless the cell is complete.
  function CellEvents(cell: Cell, ctx: Context, id: Identity): seq<Event> {
    if !cell.status.CellComplete? then []
    else if id in Ids(cell.candidates) then [Seen(Pick(cell.candidates, id), cell.detector, ctx)]
    else if InCell(cell, ctx, id) then [Missed(ctx.at)]
    else []
  }

  // ---- the whole store, one cell ----------------------------------------------------------

  function Keys(cell: Cell): set<Identity> {
    if cell.status.CellComplete? then Ids(cell.candidates) else {}
  }

  function CellNext(rows: Rows, cell: Cell, ctx: Context, id: Identity): (next: Option<Row>)
    ensures id in rows || id in Keys(cell) ==> next.Some?
    ensures id !in rows && id !in Keys(cell) ==> next.None?
  {
    var events := CellEvents(cell, ctx, id);
    if |events| == 0 then Lookup(rows, id) else Next(Lookup(rows, id), events[0])
  }

  function AfterCell(rows: Rows, cell: Cell, ctx: Context): Rows {
    map id | id in rows.Keys + Keys(cell) :: CellNext(rows, cell, ctx, id).value
  }

  lemma LookupAfterCell(rows: Rows, cell: Cell, ctx: Context, id: Identity)
    ensures Lookup(AfterCell(rows, cell, ctx), id) == CellNext(rows, cell, ctx, id)
  {
  }

  // The observation rows a complete cell appends, in candidate order.
  function CandidateLog(rows: Rows, candidates: seq<Candidate>, detector: DetectorType,
                        ctx: Context): seq<Observation>
  {
    if |candidates| == 0 then []
    else
      var c := candidates[|candidates|-1];
      CandidateLog(rows, candidates[..|candidates|-1], detector, ctx)
      + [ObservationOf(c.identity, Observed(Lookup(rows, c.identity), c, detector, ctx), ctx)]
  }

  function CellLog(rows: Rows, cell: Cell, ctx: Context): seq<Observation> {
    if cell.status.CellComplete?
    then CandidateLog(rows, cell.candidates, cell.detector, ctx) else []
  }

  datatype Tally = Tally(added: int, persistent: int, resolved: int, ignored: int) {
    function Plus(other: Tally): Tally {
      Tally(added + other.added, persistent + other.persistent, resolved + other.resolved,
            ignored + other.ignored)
    }
  }

  function CandidateTally(rows: Rows, c: Candidate, detector: DetectorType, ctx: Context): Tally {
    var row := Observed(Lookup(rows, c.identity), c, detector, ctx);
    Tally(if c.identity in rows then 0 else 1, if row.persistence.Persistent? then 1 else 0, 0,
          if row.status.Ignored? then 1 else 0)
  }

  function CandidatesTally(rows: Rows, candidates: seq<Candidate>, detector: DetectorType,
                           ctx: Context): Tally
  {
    if |candidates| == 0 then Tally(0, 0, 0, 0)
    else
      CandidatesTally(rows, candidates[..|candidates|-1], detector, ctx)
      .Plus(CandidateTally(rows, candidates[|candidates|-1], detector, ctx))
  }

  // The live findings of the cell that its candidates no longer mention.
  function Vanished(rows: Rows, cell: Cell, ctx: Context): set<Identity> {
    set id | id in rows && InCell(cell, ctx, id) && id !in Ids(cell.candidates)
             && !rows[id].status.Resolved?
  }

  function CellTally(rows: Rows, cell: Cell, ctx: Context): Tally {
    if cell.status.CellComplete? then
      CandidatesTally(rows, cell.candidates, cell.detector, ctx)
      .Plus(Tally(0, 0, |Vanished(rows, cell, ctx)|, 0))
    else Tally(0, 0, 0, 0)
  }

  // ---- the unique key on observations -----------------------------------------------------

  function CandidateIds(candidates: seq<Candidate>): seq<Identity> {
    seq(|candidates|, i requires 0 <= i < |candidates| => candidates[i].identity)
  }

  function CellIds(cell: Cell): seq<Identity> {
    if cell.status.CellComplete? then CandidateIds(cell.candidates) else []
  }

  lemma {:induction false} PickIsUnique(candidates: seq<Candidate>, i: nat)
    requires i < |candidates| && Distinct(CandidateIds(candidates))
    ensures candidates[i].identity in Ids(candidates)
    ensures Pick(candidates, candidates[i].identity) == candidates[i]
  {
    var ids := CandidateIds(candidates);
    assert candidates[i] in candidates;
    var c := Pick(candidates, candidates[i].identity);
    var j :| 0 <= j < |candidates| && candidates[j] == c;
    assert ids[i] == ids[j];
  }

  lemma {:induction false} CandidateLogKeys(rows: Rows, candidates: seq<Candidate>,
                                            detector: DetectorType, ctx: Context)
    ensures var log := CandidateLog(rows, candidates, detector, ctx);
            && |log| == |candidates|
            && forall k :: 0 <= k < |log| ==>
                 log[k].identity == candidates[k].identity && log[k].scan == ctx.scan
  {
    if |candidates| > 0 {
      CandidateLogKeys(rows, candidates[..|candidates|-1], detector, ctx);
    }
  }

  lemma SameLookups(a: Rows, b: Rows)
    requires forall id :: Lookup(a, id) == Lookup(b, id)
    ensures a == b
  {
    forall id
      ensures id in a <==> id in b
      ensures id in a ==> a[id] == b[id]
    {
      assert Lookup(a, id) == Lookup(b, id);
    }
  }

  // No observation of these identities by this scan is in the log.
  ghost predicate Unlogged(log: seq<Observation>, ids: seq<Identity>, scan: ScanId) {
    forall o, id :: o in log && id in ids ==> o.identity != id || o.scan != scan
  }

  // A reconciliation under way: rows, observation log, tally and identities observed so far.
  datatype Progress = Progress(rows: Rows, log: seq<Observation>, tally: Tally, ids: seq<Identity>)
  {
    predicate Taken(id: Identity, scan: ScanId) {
      exists o :: o in log && o.identity == id && o.scan == scan
    }
  }
}
