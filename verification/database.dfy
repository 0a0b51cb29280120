/** A scan on the database: a session over its rows, the scan on that session, and the one commit that
    stores all of it or nothing; and the scan as a step of the runner. */
module Database {
  import opened Domain
  import opened Scans
  import opened Sessions
  import opened Runs
  import opened Replay
  import opened ExposureHistory
  import opened Engine
  import opened Insight
  import Runner

  // What a stored scan row has to do with running it.
  datatype ScanRow = ScanRow(status: ScanStatus, startedAt: Time, requested: seq<string>)

  // The provider's answers, the settings, and the regions that were asked for.
  datatype Inputs = Inputs(
    identity: IdentityAnswer, discovery: DiscoveryAnswer, survey: Survey, settings: Settings,
    requested: Option<seq<string>>, configured: Option<seq<string>>)

  function RegionsFor(row: ScanRow, inputs: Inputs): seq<string>
    requires inputs.discovery.Known?
  {
    Regions(inputs.requested, row.requested, inputs.configured, inputs.discovery.regions)
  }

  // The step a scan amounts to when it gets as far as its regions.
  ghost function StepOf(id: ScanId, row: ScanRow, inputs: Inputs): Step
    requires inputs.identity.Account? && inputs.discovery.Known?
  {
    ScanStep(Context(id, row.startedAt, inputs.identity.id, inputs.settings),
             AllCells(Detections(inputs.survey, inputs.discovery.regions, RegionsFor(row, inputs))))
  }

  ghost function VerdictOf(row: ScanRow, inputs: Inputs): ScanStatus
    requires inputs.discovery.Known?
  {
    var regions := RegionsFor(row, inputs);
    Verdict(Detections(inputs.survey, inputs.discovery.regions, regions),
            Runnable(inputs.discovery.regions, regions))
  }

  predicate IsRunning(rows: map<ScanId, ScanRow>, id: ScanId) {
    id in rows && rows[id].status.Running?
  }

  // Credentials or region discovery refused: the scan ends without having looked at a region.
  predicate Refused(inputs: Inputs) {
    inputs.identity.CredentialsRejected?
    || (inputs.identity.Account? && inputs.discovery.DiscoveryRefused?)
  }

  predicate ReachesRegions(inputs: Inputs) {
    inputs.identity.Account? && inputs.discovery.Known?
  }

  // How the scan of a row can end: an exception leaves the database as it was, a refusal stores only
  // the failed status, and a scan over its regions stores its step and its verdict together.
  ghost predicate Ends(before: Db, rows: map<ScanId, ScanRow>, id: ScanId, row: ScanRow,
                       inputs: Inputs, after: Db, now: map<ScanId, ScanRow>, finished: bool)
  {
    && (finished <==>
          || Refused(inputs)
          || (ReachesRegions(inputs) && Commits(before.log, StepOf(id, row, inputs).cells, id)))
    && (!finished ==> after == before && now == rows)
    && (finished && Refused(inputs) ==>
          after == before && now == rows[id := row.(status := ScanStatus.Failed)])
    && (finished && ReachesRegions(inputs) ==>
          && after == Apply(before, StepOf(id, row, inputs))
          && now == rows[id := ScanRow(VerdictOf(row, inputs), row.startedAt,
                                       RegionsFor(row, inputs))])
  }

  // A stored scan is refused by an exception unless its row is running.
  ghost predicate Leaves(before: Db, rows: map<ScanId, ScanRow>, id: ScanId, inputs: Inputs,
                         after: Db, now: map<ScanId, ScanRow>, finished: bool)
  {
    if IsRunning(rows, id) then Ends(before, rows, id, rows[id], inputs, after, now, finished)
    else !finished && after == before && now == rows
  }

  // The row a scan makes for itself when it is not given a stored one.
  function OwnRow(now: Time, requested: Option<seq<string>>): ScanRow {
    ScanRow(Running, now, if requested.Some? then requested.value else [])
  }

  class Store {
    var contents: Db
    var rows: map<ScanId, ScanRow>

    constructor (contents: Db, rows: map<ScanId, ScanRow>)
      ensures this.contents == contents && this.rows == rows
    {
      this.contents, this.rows := contents, rows;
    }

    // Runs the scan of a running row in a session of its own; the row need not be stored yet.
    method RunRow(id: ScanId, row: ScanRow, inputs: Inputs) returns (finished: bool)
      requires row.status.Running?
      modifies this
      ensures Ends(old(contents), old(rows), id, row, inputs, contents, rows, finished)
    {
      hide Commits, Apply, Done, Detections, AllCells, Runnable, Regions, Verdict;
      var session := new Session.Open(contents.rows, contents.log);
      var scan := new Scan(id, row.startedAt, row.requested);
      finished := RunScan(session, scan, inputs.identity, inputs.discovery, inputs.survey,
                          inputs.settings, inputs.requested, inputs.configured);
      if !finished {
        return;
      }
      if scan.error.Some? {
        rows := rows[id := row.(status := scan.status)];
      } else {
        ghost var step := StepOf(id, row, inputs);
        ghost var regions := RegionsFor(row, inputs);
        ghost var detections := Detections(inputs.survey, inputs.discovery.regions, regions);
        ghost var runnable := Runnable(inputs.discovery.regions, regions);
        DoneIsStep(session, scan, detections, runnable, contents, step.ctx);
        DoneHasVerdict(session, scan, detections, runnable, contents, step.ctx);
        contents := Db(session.Rows(), session.observations,
                       contents.scans[id := Totals(scan.tally, scan.exposure)]);
        rows := rows[id := ScanRow(scan.status, scan.startedAt, scan.requested)];
      }
    }

    /** Runs a stored scan. False is an escaping exception: nothing of what the session and the scan row
        held by then is stored. */
    method RunStored(id: ScanId, inputs: Inputs) returns (finished: bool)
      modifies this
      ensures Leaves(old(contents), old(rows), id, inputs, contents, rows, finished)
    {
      hide Ends;
      if !IsRunning(rows, id) {
        return false;
      }
      finished := RunRow(id, rows[id], inputs);
    }

    /** Runs a scan that makes its own row under a fresh id: after an exception there is no row, and
        otherwise the requested regions, if any, are the ones asked for. */
    method RunOwn(id: ScanId, now: Time, inputs: Inputs) returns (finished: bool)
      requires id !in rows
      modifies this
      ensures Ends(old(contents), old(rows), id, OwnRow(now, inputs.requested), inputs, contents, rows,
                   finished)
      ensures id in rows <==> finished
      ensures finished && ReachesRegions(inputs) && inputs.requested.None? ==>
                rows[id].requested
                == if inputs.configured.Some? then inputs.configured.value
                   else Names(inputs.discovery.regions)
    {
      hide Commits, Apply, StepOf, VerdictOf;
      finished := RunRow(id, OwnRow(now, inputs.requested), inputs);
    }
  }

  lemma DoneHasVerdict(session: Session, scan: Scan, detections: seq<RegionDetection>,
                       runnable: bool, db: Db, ctx: Context)
    requires Done(session, scan, detections, runnable, db.rows, db.log, ctx)
    ensures scan.status == Verdict(detections, runnable)
  {
  }

  /** Whether it gets through or raises, a scan that reaches its regions leaves exactly what applying
      its step leaves: all of it or nothing. */
  lemma AllOrNothing(before: Db, rows: map<ScanId, ScanRow>, id: ScanId, inputs: Inputs, after: Db,
                     now: map<ScanId, ScanRow>, finished: bool)
    requires Leaves(before, rows, id, inputs, after, now, finished)
    ensures IsRunning(rows, id) && ReachesRegions(inputs) ==>
              after == Apply(before, StepOf(id, rows[id], inputs))
    ensures !(IsRunning(rows, id) && ReachesRegions(inputs)) ==> after == before
    ensures forall r :: r != id ==> Lookup(now, r) == Lookup(rows, r)
  {
    hide Commits, AfterCells, CellsLog, CellsTally, RowsExposure, StepOf, VerdictOf;
    if IsRunning(rows, id) && ReachesRegions(inputs) {
      assert StepOf(id, rows[id], inputs).ScanStep?
          && StepOf(id, rows[id], inputs).ctx.scan == id by {
        StepIsOfScan(id, rows[id], inputs);
      }
    }
  }

  lemma StepIsOfScan(id: ScanId, row: ScanRow, inputs: Inputs)
    requires ReachesRegions(inputs)
    ensures var step := StepOf(id, row, inputs);
            step.ScanStep? && step.ctx.scan == id && step.ctx.at == row.startedAt
            && step.ctx.account == inputs.identity.id
  {
  }

  // ---- the scan as a step of the runner ---------------------------------------------------

  // The database as the runner sees it.
  ghost predicate Sees(s: Runner.State, contents: Db, rows: map<ScanId, ScanRow>) {
    && s.db == contents && s.rows.Keys == rows.Keys && s.started.Keys == rows.Keys
    && forall r :: r in rows ==> s.rows[r] == rows[r].status && s.started[r] == rows[r].startedAt
  }

  // What the engine does to the database as the runner's action.
  ghost function ActionOf(id: ScanId, row: ScanRow, inputs: Inputs, finished: bool): Runner.Action {
    if !finished then Runner.EngineRaises
    else if ReachesRegions(inputs) then
      var step := StepOf(id, row, inputs);
      Runner.EngineCommits(VerdictOf(row, inputs), step.ctx, step.cells)
    else Runner.EngineCommitsEmpty
  }

  /** Running a stored scan is a step of the runner on the runner's own database: the engine commits its
      whole step, commits a bare failure, or raises and leaves everything as it was. */
  lemma ScanIsRunnerStep(s: Runner.State, t: Runner.Tid, before: Db, rows: map<ScanId, ScanRow>,
                         inputs: Inputs, after: Db, now: map<ScanId, ScanRow>, finished: bool)
    requires t in s.threads && s.threads[t].Executing? && Sees(s, before, rows)
    requires Leaves(before, rows, s.threads[t].scan, inputs, after, now, finished)
    requires IsRunning(rows, s.threads[t].scan)
    requires inputs.identity.Account? ==> Stamps(inputs.survey, inputs.identity.id)
    ensures var id := s.threads[t].scan;
            var a := ActionOf(id, rows[id], inputs, finished);
            Runner.Enabled(s, t, a) && Sees(Runner.Do(s, t, a), after, now)
  {
    hide Commits, Apply, StepOf, VerdictOf, Sound;
    var id := s.threads[t].scan;
    if finished && ReachesRegions(inputs) {
      StepIsOfScan(id, rows[id], inputs);
      StepIsSound(id, rows[id], inputs);
    }
  }

  lemma StepIsSound(id: ScanId, row: ScanRow, inputs: Inputs)
    requires ReachesRegions(inputs) && Stamps(inputs.survey, inputs.identity.id)
    ensures var step := StepOf(id, row, inputs); Sound(step.cells, step.ctx)
    ensures !VerdictOf(row, inputs).Running?
  {
    hide Sound, Detections, AllCells, Runnable, Regions, Stamps;
    ScanCellsAreSound(inputs.survey, inputs.discovery.regions, RegionsFor(row, inputs),
                      Context(id, row.startedAt, inputs.identity.id, inputs.settings));
  }

  // ---- every interleaving meets the theorems on runs --------------------------------------

  /** In every interleaving of starts, scans, patches and failures, on top of a database that came about
      this way, each finding's row summarises its own history of committed cells, its risk is current
      and decides its eligibility, and each stored headline is the sum its observation rows give. */
  lemma EveryInterleavingKeepsTheFindings(s: Runner.State, run: seq<(Runner.Tid, Runner.Action)>,
                                          id: Identity, i: nat)
    requires Runner.Initial(s) && Runner.Legal(s, run)
    ensures var end := Runner.After(s, run);
            && (id in end.db.rows ==>
                  && EverSeen(Sightings(Events(end.steps, id)))
                  && Summarises(end.db.rows[id], Sightings(Events(end.steps, id)))
                  && end.db.rows[id].observationCount == CountLog(end.db.log, id)
                  && EligibleExactly(id.detector, end.db.rows[id]))
            && (i < |end.steps| && end.steps[i].ScanStep? ==>
                  var scan := end.steps[i].ctx.scan;
                  && scan in end.db.scans && scan in end.rows && !end.rows[scan].Running?
                  && end.db.scans[scan].exposure == LogExposure(OfScan(end.db.log, scan)))
  {
    Runner.DatabaseIsAWellFormedRun(s, run);
    hide Runner.After, Runner.Legal, Runner.Initial, Run, Events, Sightings, Summarises, CountLog;
    hide EligibleExactly, WellFormed, LogExposure, OfScan, CellsIds, Distinct;
    var end := Runner.After(s, run);
    ReplayRefinement(end.steps, id);
    EligibilityOnReachableStores(end.steps, id);
    if i < |end.steps| && end.steps[i].ScanStep? {
      assert Runner.FitsRow(end, end.steps[i]);
      ExposureIsConserved(end.steps, i);
    }
  }
}
