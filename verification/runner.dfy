/** The scan runner as a transition system over the database it works on: any number of starts,
    workers, user patches and failures of every step, the failure handler included, in every
    interleaving within one process. */
module Runner {
  import opened Domain
  import opened History
  import opened Scans
  import opened Runs
  import opened ExposureHistory

  type Tid = nat

  // Where a thread stands: starting a scan, executing one, or cleaning up after it.
  datatype Pc =
    | Idle
    | WantsStart(wait: bool)
    | InStart(wait: bool)
    | Vacant(wait: bool)
    | Inserted(scan: ScanId, wait: bool)
    | Executing(scan: ScanId)
    | Committed(scan: ScanId)
    | Handling(scan: ScanId)
    | Finishing(scan: ScanId)
    | Clearing(scan: ScanId)

  datatype State = State(
    threads: map<Tid, Pc>,
    lock: Option<Tid>,
    current: Option<ScanId>,
    // The scan rows: their status and their start time.
    rows: map<ScanId, ScanStatus>,
    started: map<ScanId, Time>,
    clock: Time,
    // The findings, observation rows and totals, and the commits that made them what they are.
    db: Db,
    steps: seq<Step>,
    // The scans whose engine run raised.
    raised: set<ScanId>)

  datatype Action =
    | Tick(now: Time)
    | UserPatches(id: Identity, target: FindingStatus, reason: Option<string>)
    | Arrive(wait: bool)
    | TakeLock
    | Refuse
    | FindVacant
    | InsertFails
    | Insert(scan: ScanId)
    | Proceed
    | Spawn(worker: Tid)
    | SpawnFails
    | PublishFails
    | EscapesHandler
    | PrepareFails
    | EngineCommits(status: ScanStatus, ctx: Context, cells: seq<Cell>)
    | EngineCommitsEmpty
    | EngineRaises
    | RefreshSucceeds
    | RefreshFails
    | HandlerCommits
    | HandlerFails
    | TakeLockToClear
    | Clear

  predicate AnyRunning(s: State) {
    exists r :: r in s.rows && s.rows[r].Running?
  }

  // The engine stamps its commit with the scan's id and start time; its cells come from detectors
  // that stamp what they find, and no observation key repeats.
  ghost predicate CanCommit(s: State, scan: ScanId, ctx: Context, cells: seq<Cell>) {
    && scan in s.rows && s.rows[scan].Running?
    && ctx.scan == scan && scan in s.started && ctx.at == s.started[scan]
    && Sound(cells, ctx) && Commits(s.db.log, cells, scan)
  }

  ghost predicate Enabled(s: State, t: Tid, a: Action) {
    t in s.threads &&
    var pc := s.threads[t];
    match a
    case Tick(now) => s.clock <= now
    case UserPatches(_, _, _) => pc.Idle?
    case Arrive(_) => pc.Idle?
    case TakeLock => pc.WantsStart? && s.lock.None?
    case Refuse => pc.InStart? && (s.current.Some? || AnyRunning(s))
    case FindVacant => pc.InStart? && s.current.None? && !AnyRunning(s)
    case InsertFails => pc.Vacant?
    case Insert(scan) => pc.Vacant? && scan !in s.rows
    case Proceed => pc.Inserted? && pc.wait
    case Spawn(worker) => pc.Inserted? && !pc.wait && worker !in s.threads
    case SpawnFails => pc.Inserted? && !pc.wait
    case PublishFails => pc.Inserted?
    case EscapesHandler => pc.Executing? || pc.Committed? || pc.Handling?
    case PrepareFails => pc.Executing?
    case EngineCommits(status, ctx, cells) =>
      pc.Executing? && !status.Running? && CanCommit(s, pc.scan, ctx, cells)
    case EngineCommitsEmpty => pc.Executing? && pc.scan in s.rows && s.rows[pc.scan].Running?
    case EngineRaises => pc.Executing?
    case RefreshSucceeds => pc.Committed?
    case RefreshFails => pc.Committed?
    case HandlerCommits => pc.Handling?
    case HandlerFails => pc.Handling?
    case TakeLockToClear => pc.Finishing? && s.lock.None?
    case Clear => pc.Clearing?
  }

  function Goto(s: State, t: Tid, pc: Pc): State {
    s.(threads := s.threads[t := pc])
  }

  // What a commit makes of the database.
  ghost function Committing(s: State, step: Step): State {
    s.(db := Apply(s.db, step), steps := s.steps + [step])
  }

  ghost function Do(s: State, t: Tid, a: Action): State
    requires Enabled(s, t, a)
  {
    var pc := s.threads[t];
    match a
    case Tick(now) => s.(clock := now)
    case UserPatches(id, target, reason) => Committing(s, PatchStep(id, target, reason, s.clock))
    case Arrive(wait) => Goto(s, t, WantsStart(wait))
    case TakeLock => Goto(s, t, InStart(pc.wait)).(lock := Some(t))
    case Refuse => Goto(s, t, Idle).(lock := None)
    case FindVacant => Goto(s, t, Vacant(pc.wait))
    case InsertFails => Goto(s, t, Idle).(lock := None)
    case Insert(scan) =>
      Goto(s, t, Inserted(scan, pc.wait))
      .(rows := s.rows[scan := Running], started := s.started[scan := s.clock])
    // The scan id is published before the lock is released; then the scan runs here or elsewhere.
    case Proceed => Goto(s, t, Executing(pc.scan)).(current := Some(pc.scan), lock := None)
    case Spawn(worker) =>
      Goto(Goto(s, t, Idle), worker, Executing(pc.scan)).(current := Some(pc.scan), lock := None)
    case SpawnFails => Goto(s, t, Idle).(current := Some(pc.scan), lock := None)
    // The start fails between its commit and the publication of the scan id.
    case PublishFails => Goto(s, t, Idle).(lock := None)
    // What the failure handler does not catch, an interrupt or an exit, still passes the cleanup.
    case EscapesHandler =>
      Goto(s, t, Finishing(pc.scan))
      .(raised := if pc.Executing? then s.raised + {pc.scan} else s.raised)
    case PrepareFails => Goto(s, t, Handling(pc.scan))
    // The one commit of the engine: findings and terminal status together.
    case EngineCommits(status, ctx, cells) =>
      Goto(Committing(s, ScanStep(ctx, cells)), t, Committed(pc.scan))
      .(rows := s.rows[pc.scan := status])
    // Credentials or region discovery failed: a terminal status without findings.
    case EngineCommitsEmpty =>
      Goto(s, t, Committed(pc.scan)).(rows := s.rows[pc.scan := ScanStatus.Failed])
    case EngineRaises => Goto(s, t, Handling(pc.scan)).(raised := s.raised + {pc.scan})
    case RefreshSucceeds => Goto(s, t, Finishing(pc.scan))
    case RefreshFails => Goto(s, t, Handling(pc.scan))
    case HandlerCommits =>
      Goto(s, t, Finishing(pc.scan))
      .(rows := if pc.scan in s.rows then s.rows[pc.scan := ScanStatus.Failed] else s.rows)
    case HandlerFails => Goto(s, t, Finishing(pc.scan))
    case TakeLockToClear => Goto(s, t, Clearing(pc.scan)).(lock := Some(t))
    case Clear =>
      Goto(s, t, Idle)
      .(current := if s.current == Some(pc.scan) then None else s.current, lock := None)
  }

  ghost predicate Legal(s: State, run: seq<(Tid, Action)>)
    decreases |run|
  {
    |run| > 0 ==> Enabled(s, run[0].0, run[0].1) && Legal(Do(s, run[0].0, run[0].1), run[1..])
  }

  ghost function After(s: State, run: seq<(Tid, Action)>): State
    requires Legal(s, run)
    decreases |run|
  {
    if |run| == 0 then s else After(Do(s, run[0].0, run[0].1), run[1..])
  }

  // A process that begins on the database of earlier ones, which may have left one row running.
  ghost predicate Initial(s: State) {
    && (forall t :: t in s.threads ==> s.threads[t].Idle?)
    && s.lock == None && s.current == None && SoleRunning(s)
    && s.raised == {} && Recorded(s)
  }

  // ---- the invariant ----------------------------------------------------------------------

  predicate HasLock(pc: Pc) {
    pc.InStart? || pc.Vacant? || pc.Inserted? || pc.Clearing?
  }

  predicate Works(pc: Pc) {
    pc.Executing? || pc.Committed? || pc.Handling? || pc.Finishing? || pc.Clearing?
  }

  ghost predicate LockIsExclusive(s: State) {
    && (forall t :: t in s.threads ==> (HasLock(s.threads[t]) <==> s.lock == Some(t)))
    && (s.lock.Some? ==> s.lock.value in s.threads)
  }

  ghost predicate WorkerIsCurrent(s: State) {
    forall t :: t in s.threads && Works(s.threads[t]) ==>
      s.current == Some(s.threads[t].scan) && s.threads[t].scan in s.rows
  }

  ghost predicate SoleWorker(s: State) {
    forall t, u :: t in s.threads && u in s.threads && Works(s.threads[t]) && Works(s.threads[u]) ==>
      t == u
  }

  ghost predicate VacantMeansNone(s: State) {
    forall t :: t in s.threads && s.threads[t].Vacant? ==> s.current.None? && !AnyRunning(s)
  }

  ghost predicate InsertedIsUnpublished(s: State) {
    forall t :: t in s.threads && s.threads[t].Inserted? ==>
      s.current.None? && s.threads[t].scan in s.rows && s.rows[s.threads[t].scan].Running?
  }

  ghost predicate StarterIsAlone(s: State) {
    VacantMeansNone(s) && InsertedIsUnpublished(s)
  }

  ghost predicate OneWorker(s: State) {
    WorkerIsCurrent(s) && SoleWorker(s) && StarterIsAlone(s)
  }

  ghost predicate SoleRunning(s: State) {
    forall r, q :: r in s.rows && q in s.rows && s.rows[r].Running? && s.rows[q].Running? ==>
      r == q
  }

  ghost predicate InsertedIsRunning(s: State) {
    forall t, r ::
      t in s.threads && s.threads[t].Inserted? && r in s.rows && s.rows[r].Running? ==>
        r == s.threads[t].scan
  }

  ghost predicate ExecutingIsRunning(s: State) {
    forall t :: t in s.threads && s.threads[t].Executing? ==>
      s.threads[t].scan in s.rows && s.rows[s.threads[t].scan].Running?
  }

  ghost predicate OneRunning(s: State) {
    SoleRunning(s) && InsertedIsRunning(s) && ExecutingIsRunning(s)
  }

  // A committed scan: its row is terminal, its engine run did not raise, and it was stamped with the
  // row's id and start time.
  ghost predicate FitsRow(s: State, step: Step) {
    step.ScanStep? ==>
      var scan := step.ctx.scan;
      && scan in s.rows && !s.rows[scan].Running? && scan !in s.raised
      && scan in s.started && step.ctx.at == s.started[scan]
      && Sound(step.cells, step.ctx) && Distinct(CellsIds(step.cells))
  }

  ghost predicate RowsAreDated(s: State) {
    && s.started.Keys == s.rows.Keys
    && (forall r :: r in s.started ==> s.started[r] <= s.clock)
    && (forall r :: r in s.raised ==> r in s.rows)
  }

  // The database is what a well-formed run of commits made it.
  ghost predicate Recorded(s: State) {
    && RowsAreDated(s)
    && s.db == Run(s.steps) && WellFormed(s.steps)
    && forall i :: 0 <= i < |s.steps| ==> FitsRow(s, s.steps[i])
  }

  // A scan that begins after this step.
  ghost predicate ComesAfter(s: State, step: Step, scan: ScanId) {
    step.ScanStep? ==>
      step.ctx.scan != scan && scan in s.started && step.ctx.at <= s.started[scan]
  }

  predicate UnderWay(pc: Pc) {
    pc.Executing? || pc.Inserted?
  }

  ghost predicate NotYetRaised(s: State) {
    forall t :: t in s.threads && UnderWay(s.threads[t]) ==> s.threads[t].scan !in s.raised
  }

  ghost predicate ComesLast(s: State) {
    forall t, i :: t in s.threads && UnderWay(s.threads[t]) && 0 <= i < |s.steps| ==>
      ComesAfter(s, s.steps[i], s.threads[t].scan)
  }

  ghost predicate NotYetApplied(s: State) {
    NotYetRaised(s) && ComesLast(s)
  }

  ghost predicate CommittedIsTerminal(s: State) {
    forall t :: t in s.threads && s.threads[t].Committed? ==>
      s.threads[t].scan in s.rows && !s.rows[s.threads[t].scan].Running?
      && s.threads[t].scan !in s.raised
  }

  ghost predicate AppliedOnce(s: State) {
    Recorded(s) && NotYetApplied(s) && CommittedIsTerminal(s)
  }

  ghost predicate Inv(s: State) {
    LockIsExclusive(s) && OneWorker(s) && OneRunning(s) && AppliedOnce(s)
  }

  lemma LockStep(s: State, t: Tid, a: Action)
    requires LockIsExclusive(s) && Enabled(s, t, a)
    ensures LockIsExclusive(Do(s, t, a))
  {
    hide CanCommit, Apply;
  }

  lemma WorkerStep(s: State, t: Tid, a: Action)
    requires LockIsExclusive(s) && OneWorker(s) && OneRunning(s) && Enabled(s, t, a)
    ensures OneWorker(Do(s, t, a))
  {
    hide OneRunning;
    WorkerIsCurrentStep(s, t, a);
    SoleWorkerStep(s, t, a);
    StarterIsAloneStep(s, t, a);
  }

  lemma WorkerIsCurrentStep(s: State, t: Tid, a: Action)
    requires OneWorker(s) && Enabled(s, t, a)
    ensures WorkerIsCurrent(Do(s, t, a))
  {
    hide CanCommit, Apply;
  }

  lemma SoleWorkerStep(s: State, t: Tid, a: Action)
    requires OneWorker(s) && Enabled(s, t, a)
    ensures SoleWorker(Do(s, t, a))
  {
    hide CanCommit, Apply;
  }

  lemma StarterIsAloneStep(s: State, t: Tid, a: Action)
    requires LockIsExclusive(s) && OneWorker(s) && Enabled(s, t, a)
    ensures StarterIsAlone(Do(s, t, a))
  {
    VacantMeansNoneStep(s, t, a);
    InsertedIsUnpublishedStep(s, t, a);
    hide Do, Enabled, VacantMeansNone, InsertedIsUnpublished;
  }

  lemma VacantMeansNoneStep(s: State, t: Tid, a: Action)
    requires LockIsExclusive(s) && OneWorker(s) && Enabled(s, t, a)
    ensures VacantMeansNone(Do(s, t, a))
  {
    hide CanCommit, Apply, SoleWorker, InsertedIsUnpublished;
  }

  lemma InsertedIsUnpublishedStep(s: State, t: Tid, a: Action)
    requires LockIsExclusive(s) && OneWorker(s) && Enabled(s, t, a)
    ensures InsertedIsUnpublished(Do(s, t, a))
  {
    hide CanCommit, Apply, SoleWorker;
  }

  lemma RunningStep(s: State, t: Tid, a: Action)
    requires LockIsExclusive(s) && OneWorker(s) && OneRunning(s) && Enabled(s, t, a)
    ensures OneRunning(Do(s, t, a))
  {
    SoleRunningStep(s, t, a);
    InsertedIsRunningStep(s, t, a);
    ExecutingIsRunningStep(s, t, a);
    hide Do, Enabled, OneWorker, LockIsExclusive;
  }

  lemma SoleRunningStep(s: State, t: Tid, a: Action)
    requires OneWorker(s) && SoleRunning(s) && Enabled(s, t, a)
    ensures SoleRunning(Do(s, t, a))
  {
    hide CanCommit, Apply;
    hide SoleWorker, WorkerIsCurrent;
  }

  lemma InsertedIsRunningStep(s: State, t: Tid, a: Action)
    requires LockIsExclusive(s) && OneWorker(s) && InsertedIsRunning(s) && Enabled(s, t, a)
    ensures InsertedIsRunning(Do(s, t, a))
  {
    hide CanCommit, Apply;
    hide SoleWorker, WorkerIsCurrent;
  }

  lemma ExecutingIsRunningStep(s: State, t: Tid, a: Action)
    requires OneWorker(s) && ExecutingIsRunning(s) && Enabled(s, t, a)
    ensures ExecutingIsRunning(Do(s, t, a))
  {
    hide CanCommit, Apply;
    hide WorkerIsCurrent;
  }

  lemma AppliedStep(s: State, t: Tid, a: Action)
    requires OneWorker(s) && AppliedOnce(s) && Enabled(s, t, a)
    ensures AppliedOnce(Do(s, t, a))
  {
    RecordedStep(s, t, a);
    NotYetAppliedStep(s, t, a);
    CommittedIsTerminalStep(s, t, a);
    hide Do, Enabled, OneWorker, Recorded, NotYetApplied;
  }

  lemma RowsAreDatedStep(s: State, t: Tid, a: Action)
    requires OneWorker(s) && RowsAreDated(s) && Enabled(s, t, a)
    ensures RowsAreDated(Do(s, t, a))
  {
    hide CanCommit, Apply;
  }

  // No step takes back what a committed scan looks like.
  lemma FitsRowStep(s: State, t: Tid, a: Action, step: Step)
    requires OneWorker(s) && NotYetApplied(s) && Enabled(s, t, a)
    requires step in s.steps && FitsRow(s, step)
    ensures FitsRow(Do(s, t, a), step)
  {
    hide CanCommit, Apply, Sound, Distinct, CellsIds;
    var i :| 0 <= i < |s.steps| && s.steps[i] == step;
    assert forall u :: u in s.threads && s.threads[u].Executing? ==>
             ComesAfter(s, s.steps[i], s.threads[u].scan);
  }

  lemma CommitIsStep(s: State, step: Step)
    requires Recorded(s)
    requires step.ScanStep? ==>
               && Sound(step.cells, step.ctx)
               && forall i :: 0 <= i < |s.steps| ==>
                    ComesAfter(s, s.steps[i], step.ctx.scan)
                    && step.ctx.scan in s.started && s.started[step.ctx.scan] == step.ctx.at
    ensures var next := Committing(s, step);
            next.db == Run(next.steps) && WellFormed(next.steps)
  {
    hide Apply, WellFormed, FitsRow;
    RunExtends(s.steps, step);
    if step.ScanStep? {
      forall i | 0 <= i < |s.steps| && s.steps[i].ScanStep?
        ensures s.steps[i].ctx.scan != step.ctx.scan && s.steps[i].ctx.at <= step.ctx.at
      {
        assert ComesAfter(s, s.steps[i], step.ctx.scan);
      }
    }
    WellFormedExtends(s.steps, step);
  }

  lemma OldStepsFit(s: State, t: Tid, a: Action)
    requires OneWorker(s) && AppliedOnce(s) && Enabled(s, t, a)
    ensures forall step :: step in s.steps ==> FitsRow(Do(s, t, a), step)
  {
    forall step | step in s.steps
      ensures FitsRow(Do(s, t, a), step)
    {
      var i :| 0 <= i < |s.steps| && s.steps[i] == step;
      FitsRowStep(s, t, a, step);
    }
  }

  // What a full commit changes, and what it was allowed on.
  lemma CommitEffect(s: State, t: Tid, a: Action)
    requires Enabled(s, t, a) && a.EngineCommits?
    ensures t in s.threads && s.threads[t].Executing? && !a.status.Running?
    ensures CanCommit(s, s.threads[t].scan, a.ctx, a.cells)
    ensures var next, step := Do(s, t, a), ScanStep(a.ctx, a.cells);
            && next.db == Apply(s.db, step) && next.steps == s.steps + [step]
            && next.rows == s.rows[s.threads[t].scan := a.status]
            && next.started == s.started && next.raised == s.raised
  {
    hide CanCommit, Apply;
  }

  lemma ScanIsStep(s: State, t: Tid, a: Action)
    requires OneWorker(s) && AppliedOnce(s) && Enabled(s, t, a) && a.EngineCommits?
    ensures var next, step := Do(s, t, a), ScanStep(a.ctx, a.cells);
            && next.db == Run(next.steps) && WellFormed(next.steps)
            && next.steps == s.steps + [step] && FitsRow(next, step)
  {
    hide Do, Enabled, Apply, Run, WellFormed, Sound, CellsIds, Distinct, Unlogged, OneWorker;
    CommitEffect(s, t, a);
    forall i | 0 <= i < |s.steps|
      ensures ComesAfter(s, s.steps[i], s.threads[t].scan)
    {
    }
    CommitIsStep(s, ScanStep(a.ctx, a.cells));
  }

  lemma PatchIsStep(s: State, t: Tid, a: Action)
    requires Recorded(s) && Enabled(s, t, a) && a.UserPatches?
    ensures var next, step := Do(s, t, a), PatchStep(a.id, a.target, a.reason, s.clock);
            && next.db == Run(next.steps) && WellFormed(next.steps)
            && next.steps == s.steps + [step] && FitsRow(next, step)
  {
    hide Apply, Run, WellFormed;
    CommitIsStep(s, PatchStep(a.id, a.target, a.reason, s.clock));
  }

  lemma OnlyCommitsRecord(s: State, t: Tid, a: Action)
    requires Enabled(s, t, a) && !a.EngineCommits? && !a.UserPatches?
    ensures Do(s, t, a).db == s.db && Do(s, t, a).steps == s.steps
  {
    hide CanCommit;
  }

  lemma RecordedStep(s: State, t: Tid, a: Action)
    requires OneWorker(s) && AppliedOnce(s) && Enabled(s, t, a)
    ensures Recorded(Do(s, t, a))
  {
    hide Do, Enabled, Run, WellFormed, FitsRow, RowsAreDated, OneWorker, NotYetApplied;
    hide CommittedIsTerminal;
    RowsAreDatedStep(s, t, a);
    OldStepsFit(s, t, a);
    if a.EngineCommits? {
      ScanIsStep(s, t, a);
    } else if a.UserPatches? {
      PatchIsStep(s, t, a);
    } else {
      OnlyCommitsRecord(s, t, a);
    }
    var next := Do(s, t, a);
    assert forall step :: step in next.steps ==> FitsRow(next, step);
  }

  lemma NotYetAppliedStep(s: State, t: Tid, a: Action)
    requires OneWorker(s) && AppliedOnce(s) && Enabled(s, t, a)
    ensures NotYetApplied(Do(s, t, a))
  {
    NotYetRaisedStep(s, t, a);
    ComesLastStep(s, t, a);
    hide Do, Enabled, NotYetRaised, ComesLast, Recorded, CommittedIsTerminal, OneWorker;
  }

  lemma NotYetRaisedStep(s: State, t: Tid, a: Action)
    requires OneWorker(s) && AppliedOnce(s) && Enabled(s, t, a)
    ensures NotYetRaised(Do(s, t, a))
  {
    hide CommittedIsTerminal, ComesLast, Apply, Run, WellFormed, FitsRow, CanCommit;
  }

  lemma ComesLastStep(s: State, t: Tid, a: Action)
    requires OneWorker(s) && AppliedOnce(s) && Enabled(s, t, a)
    ensures ComesLast(Do(s, t, a))
  {
    hide CommittedIsTerminal, NotYetRaised, Apply, Run, WellFormed, Sound, CanCommit;
  }

  lemma CommittedIsTerminalStep(s: State, t: Tid, a: Action)
    requires OneWorker(s) && AppliedOnce(s) && Enabled(s, t, a)
    ensures CommittedIsTerminal(Do(s, t, a))
  {
    hide Recorded, Apply, CanCommit;
  }

  lemma InvStep(s: State, t: Tid, a: Action)
    requires Inv(s) && Enabled(s, t, a)
    ensures Inv(Do(s, t, a))
  {
    hide LockIsExclusive, OneWorker, OneRunning, AppliedOnce, Do, Enabled;
    LockStep(s, t, a);
    WorkerStep(s, t, a);
    RunningStep(s, t, a);
    AppliedStep(s, t, a);
  }

  lemma {:induction false} InvAlways(s: State, run: seq<(Tid, Action)>)
    requires Inv(s) && Legal(s, run)
    ensures Inv(After(s, run))
    decreases |run|
  {
    if |run| > 0 {
      hide Inv, Do, Enabled;
      InvStep(s, run[0].0, run[0].1);
      InvAlways(Do(s, run[0].0, run[0].1), run[1..]);
    }
  }

  lemma InitialInv(s: State)
    requires Initial(s)
    ensures Inv(s)
  {
    hide Recorded;
  }

  // ---- what every interleaving keeps ------------------------------------------------------

  ghost predicate SingleScan(s: State) {
    && (forall r, q :: r in s.rows && q in s.rows && s.rows[r].Running? && s.rows[q].Running? ==>
          r == q)
    && (forall t, u ::
          t in s.threads && u in s.threads && s.threads[t].Executing? && s.threads[u].Executing? ==>
            t == u)
    && (forall t :: t in s.threads && s.threads[t].Executing? ==>
          s.threads[t].scan in s.rows && s.rows[s.threads[t].scan].Running?)
  }

  /** In every interleaving of starts, workers, patches and failures at most one scan row is running,
      one left by an earlier process included, and at most one thread executes a scan, the running
      one. */
  lemma OneScanAtATime(s: State, run: seq<(Tid, Action)>)
    requires Initial(s) && Legal(s, run)
    ensures SingleScan(After(s, run))
  {
    hide After, Legal, Initial, Recorded;
    InitialInv(s);
    InvAlways(s, run);
  }

  lemma {:induction false} StepsGrow(s: State, run: seq<(Tid, Action)>)
    requires Legal(s, run)
    ensures s.steps <= After(s, run).steps
    decreases |run|
  {
    if |run| > 0 {
      hide Apply;
      StepsGrow(Do(s, run[0].0, run[0].1), run[1..]);
    }
  }

  /** In every interleaving the database is what a well-formed run of whole commits makes it, on top of
      the commits it started with: scan ids are fresh, start times are in order, every scan was taken
      in at most once, as a whole, none while its row was running, and none whose engine run raised. */
  lemma DatabaseIsAWellFormedRun(s: State, run: seq<(Tid, Action)>)
    requires Initial(s) && Legal(s, run)
    ensures var end := After(s, run);
            && end.db == Run(end.steps) && WellFormed(end.steps) && s.steps <= end.steps
            && forall i :: 0 <= i < |end.steps| ==> FitsRow(end, end.steps[i])
  {
    InitialInv(s);
    InvAlways(s, run);
    StepsGrow(s, run);
    hide After, Legal, Initial, Run, WellFormed, FitsRow, LockIsExclusive, OneWorker, OneRunning;
  }

  // A full commit: the row turns terminal and the store takes in exactly what the cells call for.
  ghost predicate CommitsAll(s: State, scan: ScanId, a: Action, next: State)
    requires a.EngineCommits?
  {
    && scan in s.rows && s.rows[scan].Running? && !a.status.Running?
    && next.rows == s.rows[scan := a.status]
    && scan !in s.db.scans && scan in next.db.scans
    && next.db.rows == AfterCells(s.db.rows, a.cells, a.ctx)
    && next.db.log == s.db.log + CellsLog(s.db.rows, a.cells, a.ctx)
    && next.db.scans[scan].tally == CellsTally(s.db.rows, a.cells, a.ctx)
  }

  // A patch: at most one finding's row changes, and nothing else in the database does.
  ghost predicate TouchesOne(s: State, id: Identity, next: State) {
    && next.db.log == s.db.log && next.db.scans == s.db.scans && next.rows == s.rows
    && forall other :: other != id ==> Lookup(next.db.rows, other) == Lookup(s.db.rows, other)
  }

  lemma CommitTakesAll(s: State, t: Tid, a: Action)
    requires Inv(s) && Enabled(s, t, a) && a.EngineCommits?
    ensures CommitsAll(s, s.threads[t].scan, a, Do(s, t, a))
  {
    hide AfterCells, CellsLog, CellsTally, RowsExposure, Commits, LockIsExclusive, OneWorker;
    hide Do, Enabled, OneRunning, Run, WellFormed, Sound;
    CommitEffect(s, t, a);
    TotalsAreOfCommits(s.steps);
    forall i | 0 <= i < |s.steps|
      ensures ComesAfter(s, s.steps[i], s.threads[t].scan)
    {
    }
  }

  lemma PatchTouchesOne(s: State, t: Tid, a: Action)
    requires Enabled(s, t, a) && a.UserPatches?
    ensures TouchesOne(s, a.id, Do(s, t, a))
  {
  }

  /** The database changes only in the commit of a running scan, which makes its row terminal and
      leaves exactly the rows, observation rows and totals of its cells, and in a user's patch, which
      touches one finding; a raising engine, a failing handler and every other step leave it alone. */
  lemma FindingsChangeOnlyInTheCommit(s: State, t: Tid, a: Action)
    requires Inv(s) && Enabled(s, t, a)
    ensures var next := Do(s, t, a);
            && (next.db != s.db ==> a.EngineCommits? || a.UserPatches?)
            && (a.EngineCommits? ==> CommitsAll(s, s.threads[t].scan, a, next))
            && (a.UserPatches? ==> TouchesOne(s, a.id, next))
  {
    hide Inv, Do, CommitsAll, TouchesOne;
    assert t in s.threads && (a.EngineCommits? ==> s.threads[t].Executing?);
    hide Enabled;
    if a.EngineCommits? {
      CommitTakesAll(s, t, a);
    } else if a.UserPatches? {
      PatchTouchesOne(s, t, a);
    } else {
      OnlyCommitsRecord(s, t, a);
    }
  }

  // Totals are stored by committed scans only.
  lemma {:induction false} TotalsAreOfCommits(steps: seq<Step>)
    ensures forall r :: r in Run(steps).scans ==>
              exists i :: 0 <= i < |steps| && steps[i].ScanStep? && steps[i].ctx.scan == r
  {
    if |steps| > 0 {
      hide AfterCells, CellsLog, CellsTally, RowsExposure, Commits;
      var rest, last := steps[..|steps|-1], steps[|steps|-1];
      TotalsAreOfCommits(rest);
      forall r | r in Run(steps).scans
        ensures exists i :: 0 <= i < |steps| && steps[i].ScanStep? && steps[i].ctx.scan == r
      {
        if r in Run(rest).scans {
          var i :| 0 <= i < |rest| && rest[i].ScanStep? && rest[i].ctx.scan == r;
          assert steps[i] == rest[i];
        } else {
          assert last == steps[|steps|-1] && last.ctx.scan == r;
        }
      }
    }
  }

  /** A terminal status is changed by the failure handler of the same scan and by nothing else. */
  lemma TerminalChangesOnlyByHandler(s: State, t: Tid, a: Action, r: ScanId)
    requires Inv(s) && Enabled(s, t, a) && r in s.rows && !s.rows[r].Running?
    ensures r in Do(s, t, a).rows
    ensures Do(s, t, a).rows[r]
         == if a.HandlerCommits? && s.threads[t].scan == r then ScanStatus.Failed else s.rows[r]
  {
    hide CanCommit, Apply;
    hide LockIsExclusive, OneWorker, AppliedOnce;
  }

  // One more step at the end of an interleaving.
  lemma {:induction false} OneMore(s: State, run: seq<(Tid, Action)>, t: Tid, a: Action)
    requires Legal(s, run) && Enabled(After(s, run), t, a)
    ensures Legal(s, run + [(t, a)]) && After(s, run + [(t, a)]) == Do(After(s, run), t, a)
    decreases |run|
  {
    hide Do, Enabled;
    var all := run + [(t, a)];
    if |run| == 0 {
      assert all[1..] == [] && all[0] == (t, a);
    } else {
      assert all[0] == run[0] && all[1..] == run[1..] + [(t, a)];
      OneMore(Do(s, run[0].0, run[0].1), run[1..], t, a);
    }
  }

  // A process on an empty database, with one thread; its first scan gets the id 7.
  const FRESH: State := State(map[0 := Idle], None, None, map[], map[], 0, EMPTY, [], {})

  ghost predicate FirstScan(ctx: Context, cells: seq<Cell>) {
    ctx.scan == 7 && ctx.at == 0 && Sound(cells, ctx) && Distinct(CellsIds(cells))
  }

  function Completing(ctx: Context, cells: seq<Cell>): seq<(Tid, Action)> {
    [(0, Arrive(true)), (0, TakeLock), (0, FindVacant), (0, Insert(7)), (0, Proceed),
     (0, EngineCommits(Completed, ctx, cells))]
  }

  const STARTING: seq<(Tid, Action)> := [(0, TakeLock), (0, FindVacant), (0, Insert(7))]
  const OVERWRITING: seq<(Tid, Action)> := [(0, RefreshFails), (0, HandlerCommits)]

  lemma FreshIsInitial()
    ensures Initial(FRESH)
  {
  }

  lemma Starting(wait: bool)
    ensures Legal(FRESH, [(0, Arrive(wait))] + STARTING)
    ensures After(FRESH, [(0, Arrive(wait))] + STARTING)
         == State(map[0 := Inserted(7, wait)], Some(0), None, map[7 := Running], map[7 := 0], 0,
                  EMPTY, [], {})
  {
    assert Legal(FRESH, []) && After(FRESH, []) == FRESH;
    hide Legal, After, CanCommit;
    OneMore(FRESH, [], 0, Arrive(wait));
    var one := [] + [(0, Arrive(wait))];
    OneMore(FRESH, one, 0, TakeLock);
    OneMore(FRESH, one + [(0, TakeLock)], 0, FindVacant);
    OneMore(FRESH, one + [(0, TakeLock)] + [(0, FindVacant)], 0, Insert(7));
    assert [(0, Arrive(wait))] + STARTING
        == one + [(0, TakeLock)] + [(0, FindVacant)] + [(0, Insert(7))];
  }

  lemma CompletingRuns(ctx: Context, cells: seq<Cell>)
    requires FirstScan(ctx, cells)
    ensures Legal(FRESH, Completing(ctx, cells))
    ensures var step := ScanStep(ctx, cells);
            After(FRESH, Completing(ctx, cells))
            == State(map[0 := Committed(7)], None, Some(7), map[7 := Completed], map[7 := 0], 0,
                     Apply(EMPTY, step), [step], {})
  {
    hide Legal, After, Do, Enabled, Apply, FirstScan;
    var run := [(0, Arrive(true))] + STARTING + [(0, Proceed)];
    Proceeding();
    CommitsFirst(After(FRESH, run), ctx, cells);
    OneMore(FRESH, run, 0, EngineCommits(Completed, ctx, cells));
    assert Completing(ctx, cells) == run + [(0, EngineCommits(Completed, ctx, cells))];
  }

  lemma Proceeding()
    ensures var run := [(0, Arrive(true))] + STARTING + [(0, Proceed)];
            && Legal(FRESH, run)
            && After(FRESH, run) == State(map[0 := Executing(7)], None, Some(7), map[7 := Running],
                                          map[7 := 0], 0, EMPTY, [], {})
  {
    hide Legal, After, CanCommit, Apply;
    Starting(true);
    OneMore(FRESH, [(0, Arrive(true))] + STARTING, 0, Proceed);
  }

  lemma CommitsFirst(s: State, ctx: Context, cells: seq<Cell>)
    requires FirstScan(ctx, cells)
    requires s == State(map[0 := Executing(7)], None, Some(7), map[7 := Running], map[7 := 0], 0,
                        EMPTY, [], {})
    ensures var a, step := EngineCommits(Completed, ctx, cells), ScanStep(ctx, cells);
            && Enabled(s, 0, a)
            && Do(s, 0, a) == State(map[0 := Committed(7)], None, Some(7), map[7 := Completed],
                                    map[7 := 0], 0, Apply(EMPTY, step), [step], {})
  {
    assert Unlogged(EMPTY.log, CellsIds(cells), 7);
    hide Apply, Sound, Distinct, CellsIds, Unlogged;
  }

  /** A completed scan whose findings are stored, whatever they are, can still end up failed: the
      identity refresh after the engine's commit raises. */
  lemma CompletedScanCanBecomeFailed(ctx: Context, cells: seq<Cell>)
    requires FirstScan(ctx, cells)
    ensures var run := Completing(ctx, cells);
            && Initial(FRESH) && Legal(FRESH, run) && Legal(FRESH, run + OVERWRITING)
            && After(FRESH, run).rows == map[7 := Completed]
            && After(FRESH, run + OVERWRITING).rows == map[7 := ScanStatus.Failed]
            && After(FRESH, run + OVERWRITING).db == Apply(EMPTY, ScanStep(ctx, cells))
  {
    hide Legal, After, Apply, Initial, Enabled, Do, Completing, FirstScan;
    var run := Completing(ctx, cells);
    FreshIsInitial();
    CompletingRuns(ctx, cells);
    Overwrites(After(FRESH, run));
    OneMore(FRESH, run, 0, RefreshFails);
    OneMore(FRESH, run + [(0, RefreshFails)], 0, HandlerCommits);
    assert run + OVERWRITING == run + [(0, RefreshFails)] + [(0, HandlerCommits)];
  }

  lemma Overwrites(s: State)
    requires s.threads == map[0 := Committed(7)] && s.rows == map[7 := Completed]
    ensures Enabled(s, 0, RefreshFails) && Enabled(Do(s, 0, RefreshFails), 0, HandlerCommits)
    ensures var end := Do(Do(s, 0, RefreshFails), 0, HandlerCommits);
            end.rows == map[7 := ScanStatus.Failed] && end.db == s.db
  {
  }

  // ---- a running row nobody works on ------------------------------------------------------

  // A thread that can still move the scan's row out of running.
  predicate CanStillEnd(pc: Pc, r: ScanId) {
    (pc.Inserted? || pc.Executing? || pc.Committed? || pc.Handling?) && pc.scan == r
  }

  ghost predicate Stuck(s: State, r: ScanId) {
    && r in s.rows && s.rows[r].Running?
    && forall t :: t in s.threads ==> !CanStillEnd(s.threads[t], r)
  }

  lemma StuckStep(s: State, r: ScanId, t: Tid, a: Action)
    requires Inv(s) && Stuck(s, r) && Enabled(s, t, a)
    ensures Stuck(Do(s, t, a), r)
    ensures !a.Insert?
  {
    hide CanCommit, Apply;
    hide LockIsExclusive, AppliedOnce;
  }

  /** The row of a stuck scan stays running in every continuation, and no scan ever starts again. */
  lemma {:induction false} StuckForever(s: State, r: ScanId, run: seq<(Tid, Action)>)
    requires Inv(s) && Stuck(s, r) && Legal(s, run)
    ensures Stuck(After(s, run), r)
    ensures forall i :: 0 <= i < |run| ==> !run[i].1.Insert?
    decreases |run|
  {
    hide Inv, Do, Enabled, Stuck;
    if |run| > 0 {
      InvStep(s, run[0].0, run[0].1);
      StuckStep(s, r, run[0].0, run[0].1);
      StuckForever(Do(s, run[0].0, run[0].1), r, run[1..]);
    }
  }

  lemma {:induction false} FreshTid(taken: set<Tid>) returns (worker: Tid)
    ensures forall t :: t in taken ==> t < worker
  {
    worker := 0;
    if taken != {} {
      var t :| t in taken;
      var w := FreshTid(taken - {t});
      assert forall u :: u in taken ==> u == t || u in taken - {t};
      worker := if w > t then w else t + 1;
    }
  }

  lemma OneStep(s: State, t: Tid, a: Action)
    requires Enabled(s, t, a)
    ensures Legal(s, [(t, a)]) && After(s, [(t, a)]) == Do(s, t, a)
  {
    assert Legal(s, []) && After(s, []) == s;
    hide Legal, After, Enabled, Do;
    OneMore(s, [], t, a);
    assert [] + [(t, a)] == [(t, a)];
  }

  lemma TwoSteps(s: State, t: Tid, a: Action, u: Tid, b: Action)
    requires Enabled(s, t, a) && Enabled(Do(s, t, a), u, b)
    ensures Legal(s, [(t, a), (u, b)]) && After(s, [(t, a), (u, b)]) == Do(Do(s, t, a), u, b)
  {
    hide Legal, After, Enabled, Do;
    OneStep(s, t, a);
    OneMore(s, [(t, a)], u, b);
    assert [(t, a)] + [(u, b)] == [(t, a), (u, b)];
  }

  // Whoever holds a running scan's id can end it at once, or as soon as its worker is under way.
  lemma EndInserted(s: State, r: ScanId, t: Tid, worker: Tid) returns (run: seq<(Tid, Action)>)
    requires t in s.threads && s.threads[t].Inserted? && s.threads[t].scan == r
    requires r in s.rows && s.rows[r].Running? && worker !in s.threads
    ensures Legal(s, run) && r in After(s, run).rows && !After(s, run).rows[r].Running?
  {
    hide Legal, After, CanCommit, Apply;
    if s.threads[t].wait {
      TwoSteps(s, t, Proceed, t, EngineCommitsEmpty);
      run := [(t, Proceed), (t, EngineCommitsEmpty)];
    } else {
      TwoSteps(s, t, Spawn(worker), worker, EngineCommitsEmpty);
      run := [(t, Spawn(worker)), (worker, EngineCommitsEmpty)];
    }
  }

  lemma EndUnderWay(s: State, r: ScanId, t: Tid) returns (run: seq<(Tid, Action)>)
    requires t in s.threads && (s.threads[t].Executing? || s.threads[t].Handling?)
    requires s.threads[t].scan == r && r in s.rows && s.rows[r].Running?
    ensures Legal(s, run) && r in After(s, run).rows && !After(s, run).rows[r].Running?
  {
    hide Legal, After, CanCommit, Apply;
    if s.threads[t].Handling? {
      OneStep(s, t, HandlerCommits);
      run := [(t, HandlerCommits)];
    } else {
      OneStep(s, t, EngineCommitsEmpty);
      run := [(t, EngineCommitsEmpty)];
    }
  }

  // A continuation that ends a running scan some thread can still end.
  lemma EndIt(s: State, r: ScanId) returns (run: seq<(Tid, Action)>)
    requires Inv(s) && r in s.rows && s.rows[r].Running? && !Stuck(s, r)
    ensures Legal(s, run) && r in After(s, run).rows && !After(s, run).rows[r].Running?
  {
    var t :| t in s.threads && CanStillEnd(s.threads[t], r);
    assert !s.threads[t].Committed?;
    hide Legal, After, Inv, Enabled, Do, Stuck;
    if s.threads[t].Inserted? {
      var worker := FreshTid(s.threads.Keys);
      run := EndInserted(s, r, t, worker);
    } else {
      run := EndUnderWay(s, r, t);
    }
  }

  /** A running row can never leave running exactly when no thread holds its scan between the insert
      and the end of its failure handler. */
  lemma StuckExactly(s: State, r: ScanId)
    requires Inv(s) && r in s.rows && s.rows[r].Running?
    ensures Stuck(s, r) <==>
              forall run ::
                Legal(s, run) ==> r in After(s, run).rows && After(s, run).rows[r].Running?
  {
    if Stuck(s, r) {
      forall run | Legal(s, run)
        ensures r in After(s, run).rows && After(s, run).rows[r].Running?
      {
        StuckForever(s, r, run);
      }
    } else {
      var run := EndIt(s, r);
    }
  }

  /** A reachable stuck scan: its worker could not be spawned. */
  lemma SpawnFailureSticks()
    ensures var run := [(0, Arrive(false))] + STARTING + [(0, SpawnFails)];
            && Initial(FRESH) && Legal(FRESH, run) && Stuck(After(FRESH, run), 7)
  {
    FreshIsInitial();
    Starting(false);
    hide Legal, After, Initial, CanCommit;
    OneMore(FRESH, [(0, Arrive(false))] + STARTING, 0, SpawnFails);
  }

  /** A row that an earlier process left running blocks every scan of this one. */
  lemma LeftoverBlocksEveryScan(s: State, r: ScanId, run: seq<(Tid, Action)>)
    requires Initial(s) && r in s.rows && s.rows[r].Running? && Legal(s, run)
    ensures Stuck(After(s, run), r) && forall i :: 0 <= i < |run| ==> !run[i].1.Insert?
  {
    hide Legal, After, Recorded;
    InitialInv(s);
    StuckForever(s, r, run);
  }

  lemma SoleHolder(s: State, r: ScanId, t: Tid, u: Tid)
    requires Inv(s) && t in s.threads && u in s.threads
    requires CanStillEnd(s.threads[t], r) && CanStillEnd(s.threads[u], r)
    ensures t == u
  {
  }

  // The failures after which no thread is left that would end the scan.
  predicate Strands(a: Action) {
    a.SpawnFails? || a.PublishFails? || a.EscapesHandler? || a.HandlerFails?
  }

  /** A step makes a running scan stuck exactly when its start fails after the commit, its worker cannot
      be spawned, its failure handler fails, or an interrupt passes the handler by. */
  lemma BecomesStuckExactly(s: State, r: ScanId, t: Tid, a: Action)
    requires Inv(s) && Enabled(s, t, a) && r in s.rows && s.rows[r].Running? && !Stuck(s, r)
    ensures Stuck(Do(s, t, a), r) <==>
              Strands(a) && CanStillEnd(s.threads[t], r)
  {
    var u :| u in s.threads && CanStillEnd(s.threads[u], r);
    forall v | v in s.threads && CanStillEnd(s.threads[v], r)
      ensures v == u
    {
      SoleHolder(s, r, u, v);
    }
    assert !s.threads[u].Committed?;
    hide Inv, Apply, CanCommit;
    if t == u {
      HolderSteps(s, r, t, a);
    } else {
      assert u in Do(s, t, a).threads && Do(s, t, a).threads[u] == s.threads[u];
    }
  }

  // The one thread that can still end a running scan takes a step.
  lemma HolderSteps(s: State, r: ScanId, t: Tid, a: Action)
    requires Enabled(s, t, a) && r in s.rows && s.rows[r].Running?
    requires CanStillEnd(s.threads[t], r) && !s.threads[t].Committed?
    requires forall v :: v in s.threads && CanStillEnd(s.threads[v], r) ==> v == t
    ensures Stuck(Do(s, t, a), r) <==> Strands(a)
  {
    hide Apply, CanCommit;
    var next := Do(s, t, a);
    assert t in next.threads && (a.Spawn? ==> CanStillEnd(next.threads[a.worker], r));
  }
}
