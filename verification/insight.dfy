/** What holds of every reachable store: risk and eligibility, the overview's counts, and how
    persistence behaves while settings stay fixed. */
module Insight {
  import opened Domain
  import opened Classification
  import opened History
  import opened Scans
  import opened Runs
  import opened Replay
  import opened ExposureHistory

  // ---- risk and eligibility ---------------------------------------------------------------

  // Events as well-formed runs produce them for an identity.
  ghost predicate Belongs(e: Event, id: Identity) {
    e.Seen? ==> e.candidate.identity == id && e.detector == id.detector
  }

  lemma {:induction false} CellsEventsBelong(cells: seq<Cell>, ctx: Context, id: Identity)
    requires forall c :: c in cells ==> Stamped(c, ctx)
    ensures forall e :: e in CellsEvents(cells, ctx, id) ==>
              Belongs(e, id) && (e.Seen? ==> e.ctx == ctx)
  {
    if |cells| > 0 {
      var rest, last := cells[..|cells|-1], cells[|cells|-1];
      assert cells == rest + [last];
      CellsEventsBelong(rest, ctx, id);
      assert Stamped(last, ctx);
    }
  }

  lemma {:induction false} EventsBelong(steps: seq<Step>, id: Identity)
    requires WellFormed(steps)
    ensures forall e :: e in Events(steps, id) ==> Belongs(e, id)
  {
    if |steps| > 0 {
      hide CellsEvents, Belongs;
      var last := steps[|steps|-1];
      WellFormedPrefix(steps);
      EventsBelong(steps[..|steps|-1], id);
      if last.ScanStep? {
        CellsEventsBelong(last.cells, last.ctx, id);
      } else {
        PatchBelongs(last, id);
      }
    }
  }

  lemma PatchBelongs(step: Step, id: Identity)
    requires !step.ScanStep?
    ensures forall e :: e in StepEvents(step, id) ==> Belongs(e, id)
  {
  }

  lemma {:induction false} FoldKeepsRiskCurrent(events: seq<Event>, id: Identity)
    requires forall e :: e in events ==> Belongs(e, id)
    ensures var row := Fold(None, events); row.Some? ==> RiskIsCurrent(id.detector, row.value)
  {
    if |events| > 0 {
      hide Risk, Persistence;
      var rest, last := events[..|events|-1], events[|events|-1];
      assert events == rest + [last];
      FoldKeepsRiskCurrent(rest, id);
      assert last in events && Belongs(last, id);
    }
  }

  ghost predicate EligibleExactly(detector: DetectorType, row: Row) {
    var deletable := detector.UnattachedEbsVolume? || detector.UnassociatedElasticIp?;
    var blocked := exists d :: d in row.dependencies && d.blocksRemediation;
    var guarded := ScriptKindFor(detector, row).0.GuardedRemediation?;
    && RiskIsCurrent(detector, row)
    && (row.risk.High? <==> row.ownership.Confirmed? || blocked)
    && (row.risk.Low? <==>
          deletable && row.persistence.Persistent? && row.ownership.Unknown? && !blocked)
    && (guarded <==> row.status.Open? && deletable && row.risk.Low?)
    && (guarded <==>
          && row.status.Open? && deletable && row.persistence.Persistent?
          && row.ownership.Unknown? && !blocked)
  }

  /** Eligibility on reachable stores, resolved rows included: the stored risk is high exactly for
      confirmed owners and blocking dependencies, and low exactly for persistent volumes and addresses
      without an owner and without such a dependency; and a guarded script is offered exactly for the
      open findings of low risk. */
  lemma EligibilityOnReachableStores(steps: seq<Step>, id: Identity)
    requires WellFormed(steps)
    ensures id in Run(steps).rows ==> EligibleExactly(id.detector, Run(steps).rows[id])
  {
    hide Run, Events, Fold;
    RowIsFoldOfEvents(steps, id);
    EventsBelong(steps, id);
    FoldKeepsRiskCurrent(Events(steps, id), id);
    if id in Run(steps).rows {
      var row := Run(steps).rows[id];
      OfferExactly(id.detector, row);
      RiskExactly(id.detector, row.persistence, row.ownership, row.dependencies);
      hide Risk, ScriptKindFor;
    }
  }

  // ---- the overview -----------------------------------------------------------------------

  datatype Overview = Overview(
    open: nat, persistentLow: nat, review: nat, high: nat, newlyObserved: nat, ignored: nat,
    dismissed: nat, exposure: map<ResourceType, real>)

  function CountIf(rows: Rows, ids: seq<Identity>, p: Row -> bool): nat {
    if |ids| == 0 then 0
    else
      var id := ids[|ids|-1];
      CountIf(rows, ids[..|ids|-1], p) + if id in rows && p(rows[id]) then 1 else 0
  }

  const IS_OPEN: Row -> bool := (row: Row) => row.status.Open?
  const IS_IGNORED: Row -> bool := (row: Row) => row.status.Ignored?
  const IS_DISMISSED: Row -> bool := (row: Row) => row.status.Dismissed?
  const IS_PERSISTENT_LOW: Row -> bool :=
    (row: Row) => row.status.Open? && row.persistence.Persistent? && row.risk.Low?
  const IS_REVIEW: Row -> bool := (row: Row) => row.status.Open? && row.risk.Review?
  const IS_HIGH: Row -> bool := (row: Row) => row.status.Open? && row.risk.High?
  const IS_NEW: Row -> bool := (row: Row) => row.status.Open? && row.persistence.NewlyObserved?

  // What the open findings of one resource type cost.
  function OpenCost(rows: Rows, ids: seq<Identity>, t: ResourceType): real {
    if |ids| == 0 then 0.0
    else
      var id := ids[|ids|-1];
      OpenCost(rows, ids[..|ids|-1], t)
      + if id in rows && id.resourceType == t && rows[id].status.Open? && rows[id].monthly.Some?
        then rows[id].monthly.value else 0.0
  }

  predicate Counts(o: Overview, rows: Rows, ids: seq<Identity>) {
    && o.open == CountIf(rows, ids, IS_OPEN)
    && o.persistentLow == CountIf(rows, ids, IS_PERSISTENT_LOW)
    && o.review == CountIf(rows, ids, IS_REVIEW)
    && o.high == CountIf(rows, ids, IS_HIGH)
    && o.newlyObserved == CountIf(rows, ids, IS_NEW)
    && o.ignored == CountIf(rows, ids, IS_IGNORED)
    && o.dismissed == CountIf(rows, ids, IS_DISMISSED)
    && forall t :: Get(o.exposure, t, 0.0) == OpenCost(rows, ids, t)
  }

  // The findings of the store for which this holds.
  function Having(rows: Rows, p: Row -> bool): set<Identity> {
    set id | id in rows && p(rows[id])
  }

  // The order in which the store's findings are read: each of them once.
  ghost predicate IsReading(ids: seq<Identity>, rows: Rows) {
    Distinct(ids) && forall id :: id in ids <==> id in rows
  }

  // The overview counts every finding of the store once.
  ghost predicate CountsStore(o: Overview, rows: Rows) {
    && o.open == |Having(rows, IS_OPEN)| && o.persistentLow == |Having(rows, IS_PERSISTENT_LOW)|
    && o.review == |Having(rows, IS_REVIEW)| && o.high == |Having(rows, IS_HIGH)|
    && o.newlyObserved == |Having(rows, IS_NEW)| && o.ignored == |Having(rows, IS_IGNORED)|
    && o.dismissed == |Having(rows, IS_DISMISSED)|
  }

  function HavingAmong(rows: Rows, ids: seq<Identity>, p: Row -> bool): set<Identity> {
    set id | id in ids && id in rows && p(rows[id])
  }

  lemma OneMoreHaving(rows: Rows, rest: seq<Identity>, last: Identity, p: Row -> bool)
    requires last !in rest
    ensures |HavingAmong(rows, rest + [last], p)|
         == |HavingAmong(rows, rest, p)| + if last in rows && p(rows[last]) then 1 else 0
  {
    var some, all := HavingAmong(rows, rest, p), HavingAmong(rows, rest + [last], p);
    if last in rows && p(rows[last]) {
      assert all == some + {last};
    } else {
      assert all == some;
    }
  }

  lemma {:induction false} CountIsCardinality(rows: Rows, ids: seq<Identity>, p: Row -> bool)
    requires Distinct(ids)
    ensures CountIf(rows, ids, p) == |HavingAmong(rows, ids, p)|
  {
    if |ids| > 0 {
      var rest, last := ids[..|ids|-1], ids[|ids|-1];
      assert ids == rest + [last];
      DistinctParts(rest, [last]);
      assert last in [last] && last !in rest;
      hide HavingAmong, Distinct;
      CountIsCardinality(rows, rest, p);
      OneMoreHaving(rows, rest, last, p);
    }
  }

  lemma CountOfStore(rows: Rows, ids: seq<Identity>, p: Row -> bool)
    requires IsReading(ids, rows)
    ensures CountIf(rows, ids, p) == |Having(rows, p)|
  {
    CountIsCardinality(rows, ids, p);
    assert HavingAmong(rows, ids, p) == Having(rows, p);
  }

  lemma CountsOfStore(o: Overview, rows: Rows, ids: seq<Identity>)
    requires IsReading(ids, rows) && Counts(o, rows, ids)
    ensures CountsStore(o, rows)
  {
    hide CountIf, Having, IsReading;
    CountOfStore(rows, ids, IS_OPEN);
    CountOfStore(rows, ids, IS_PERSISTENT_LOW);
    CountOfStore(rows, ids, IS_REVIEW);
    CountOfStore(rows, ids, IS_HIGH);
    CountOfStore(rows, ids, IS_NEW);
    CountOfStore(rows, ids, IS_IGNORED);
    CountOfStore(rows, ids, IS_DISMISSED);
  }

  /** The figures for statuses count the open, the ignored and the dismissed findings of the store. */
  lemma StatusesCounted(o: Overview, rows: Rows)
    requires CountsStore(o, rows)
    ensures o.open == |set id | id in rows && rows[id].status == Open|
    ensures o.ignored == |set id | id in rows && rows[id].status == Ignored|
    ensures o.dismissed == |set id | id in rows && rows[id].status == Dismissed|
  {
    assert Having(rows, IS_OPEN) == set id | id in rows && rows[id].status == Open;
    assert Having(rows, IS_IGNORED) == set id | id in rows && rows[id].status == Ignored;
    assert Having(rows, IS_DISMISSED) == set id | id in rows && rows[id].status == Dismissed;
    hide Having;
  }

  /** The cleanup candidates are the open findings that are persistent and of low risk. */
  lemma PersistentLowCounted(o: Overview, rows: Rows)
    requires CountsStore(o, rows)
    ensures o.persistentLow
         == |set id | id in rows && rows[id].status == Open && rows[id].persistence == Persistent
                      && rows[id].risk == Low|
  {
    assert Having(rows, IS_PERSISTENT_LOW)
        == set id | id in rows && rows[id].status == Open && rows[id].persistence == Persistent
                    && rows[id].risk == Low;
    hide Having;
  }

  /** The remaining figures count, among the open findings, those of review and of high risk and the newly
      observed ones. */
  lemma OpenOnesCounted(o: Overview, rows: Rows)
    requires CountsStore(o, rows)
    ensures o.review == |set id | id in rows && rows[id].status == Open && rows[id].risk == Review|
    ensures o.high == |set id | id in rows && rows[id].status == Open && rows[id].risk == High|
    ensures o.newlyObserved
         == |set id | id in rows && rows[id].status == Open && rows[id].persistence == NewlyObserved|
  {
    assert Having(rows, IS_REVIEW)
        == set id | id in rows && rows[id].status == Open && rows[id].risk == Review;
    assert Having(rows, IS_HIGH)
        == set id | id in rows && rows[id].status == Open && rows[id].risk == High;
    assert Having(rows, IS_NEW)
        == set id | id in rows && rows[id].status == Open && rows[id].persistence == NewlyObserved;
    hide Having;
  }

  /** The overview of the whole store, whatever the order in which its findings are read. */
  method Build(rows: Rows, ids: seq<Identity>) returns (o: Overview)
    requires IsReading(ids, rows)
    ensures CountsStore(o, rows) && Counts(o, rows, ids)
  {
    assert forall id :: id in ids ==> id in rows;
    hide IsReading, CountsStore;
    o := Overview(0, 0, 0, 0, 0, 0, 0, map[]);
    for i := 0 to |ids|
      invariant Counts(o, rows, ids[..i])
    {
      assert ids[..i + 1][..i] == ids[..i] && ids[i] in ids && ids[i] in rows;
      var row := rows[ids[i]];
      o := o.(ignored := if row.status.Ignored? then o.ignored + 1 else o.ignored,
              dismissed := if row.status.Dismissed? then o.dismissed + 1 else o.dismissed);
      if row.status.Open? {
        o := CountOpen(o, row);
        if row.monthly.Some? {
          var t := ids[i].resourceType;
          o := o.(exposure := o.exposure[t := Get(o.exposure, t, 0.0) + row.monthly.value]);
        }
      }
      assert forall t :: Get(o.exposure, t, 0.0) == OpenCost(rows, ids[..i + 1], t);
    }
    assert ids[..|ids|] == ids;
    CountsOfStore(o, rows, ids);
  }

  function CountOpen(o: Overview, row: Row): Overview {
    o.(open := o.open + 1,
       persistentLow := if row.persistence.Persistent? && row.risk.Low? then o.persistentLow + 1
                        else o.persistentLow,
       review := if row.risk.Review? then o.review + 1 else o.review,
       high := if row.risk.High? then o.high + 1 else o.high,
       newlyObserved := if row.persistence.NewlyObserved? then o.newlyObserved + 1
                        else o.newlyObserved)
  }

  lemma OpenSplitsByRisk(rows: Rows)
    requires forall id :: id in rows ==> RiskIsCurrent(id.detector, rows[id])
    ensures |Having(rows, IS_OPEN)|
         == |Having(rows, IS_PERSISTENT_LOW)| + |Having(rows, IS_REVIEW)| + |Having(rows, IS_HIGH)|
  {
    forall id | id in rows
      ensures id in Having(rows, IS_OPEN) <==>
                id in Having(rows, IS_PERSISTENT_LOW) || id in Having(rows, IS_REVIEW)
                || id in Having(rows, IS_HIGH)
    {
      GuardedExactly(id.detector, rows[id]);
    }
    var low, review, high := Having(rows, IS_PERSISTENT_LOW), Having(rows, IS_REVIEW),
                             Having(rows, IS_HIGH);
    assert forall id :: id in low ==> id !in review && id !in high;
    assert forall id :: id in review ==> id !in high;
    assert forall id :: id in Having(rows, IS_OPEN) || id in low || id in review || id in high ==>
             id in rows;
    hide Having, RiskIsCurrent;
    UnionOfThree(Having(rows, IS_OPEN), low, review, high);
  }

  lemma UnionOfThree(all: set<Identity>, a: set<Identity>, b: set<Identity>, c: set<Identity>)
    requires forall id :: id in all <==> id in a || id in b || id in c
    requires (forall id :: id in a ==> id !in b && id !in c) && forall id :: id in b ==> id !in c
    ensures |all| == |a| + |b| + |c|
  {
    assert all == (a + b) + c;
  }

  /** On every reachable store the overview's three risk figures partition its open findings. */
  lemma OverviewPartitions(steps: seq<Step>, o: Overview)
    requires WellFormed(steps) && CountsStore(o, Run(steps).rows)
    ensures o.open == o.persistentLow + o.review + o.high
  {
    hide Run, WellFormed;
    var rows := Run(steps).rows;
    forall id | id in rows
      ensures RiskIsCurrent(id.detector, rows[id])
    {
      EligibilityOnReachableStores(steps, id);
    }
    OpenSplitsByRisk(rows);
  }

  // ---- persistence ------------------------------------------------------------------------

  /** What observing a live finding again makes of it, in the terms the cleanup plan announces:
      persistent exactly from the threshold on with enough consecutive observations; so at the
      latest when the announced days have passed since the last observation, never a day sooner, and
      never before the threshold counted from the start of the streak. */
  lemma PromiseKept(row: Row, c: Candidate, detector: DetectorType, ctx: Context)
    requires !row.status.Resolved?
    ensures var next := Observed(Some(row), c, detector, ctx);
            var threshold := ctx.settings.Threshold(c.identity.detector);
            && (next.persistence.Persistent? <==>
                  && ctx.at >= row.streakStartedAt + threshold * DAY
                  && row.consecutive + 1 >= ctx.settings.minConsecutive)
            && (row.consecutive + 1 >= ctx.settings.minConsecutive
                && ctx.at >= row.lastObservedAt
                             + DaysUntilPersistent(c.identity.detector, row, ctx.settings) * DAY
                ==> next.persistence.Persistent?)
            && var left := DaysUntilPersistent(c.identity.detector, row, ctx.settings);
               (left > 0 && ctx.at <= row.lastObservedAt + (left - 1) * DAY
                ==> next.persistence.NewlyObserved?)
  {
    var threshold := ctx.settings.Threshold(c.identity.detector);
    FloorDays(ctx.at - row.streakStartedAt, threshold);
    var left := DaysUntilPersistent(c.identity.detector, row, ctx.settings);
    var age := WholeDays(row.lastObservedAt - row.streakStartedAt);
    FloorDays(row.lastObservedAt - row.streakStartedAt, age);
    assert left + age >= threshold;
    assert (left + age) * DAY >= threshold * DAY;
    FloorDays(row.lastObservedAt - row.streakStartedAt, age + 1);
    assert left > 0 ==> (left - 1 + (age + 1)) * DAY == threshold * DAY;
  }

  lemma FloorDays(duration: int, days: int)
    ensures WholeDays(duration) >= days <==> duration >= days * DAY
  {
  }

  // The events of a run whose scans all use the same settings.
  ghost predicate FixedSettings(steps: seq<Step>, settings: Settings) {
    forall i :: 0 <= i < |steps| && steps[i].ScanStep? ==> steps[i].ctx.settings == settings
  }

  lemma {:induction false} EventsUseSettings(steps: seq<Step>, id: Identity, settings: Settings)
    requires WellFormed(steps) && FixedSettings(steps, settings)
    ensures forall e :: e in Events(steps, id) && e.Seen? ==> e.ctx.settings == settings
  {
    if |steps| > 0 {
      hide CellsEvents;
      var last := steps[|steps|-1];
      WellFormedPrefix(steps);
      EventsUseSettings(steps[..|steps|-1], id, settings);
      if last.ScanStep? {
        CellsEventsBelong(last.cells, last.ctx, id);
      }
    }
  }

  ghost predicate PersistenceIsCurrent(id: Identity, row: Row, settings: Settings) {
    row.persistence == Persistence(id.detector, row.streakStartedAt, row.lastObservedAt,
                                   row.consecutive, settings)
  }

  // What the persistence column says of a row: it is current while the finding lives; of a resolved
  // one it still tells what the last sighting made of it, when its consecutive count was above zero.
  ghost predicate PersistenceIsOfLastSighting(id: Identity, row: Row, settings: Settings) {
    var grown := WholeDays(row.lastObservedAt - row.streakStartedAt) >= settings.Threshold(id.detector);
    if row.status.Resolved? then
      && row.consecutive == 0
      && (row.persistence.Persistent? ==> grown)
      && (row.persistence.NewlyObserved? ==> !grown || settings.minConsecutive > 1)
    else PersistenceIsCurrent(id, row, settings) && row.consecutive >= 1
  }

  lemma NextKeepsPersistence(prev: Option<Row>, e: Event, id: Identity, settings: Settings)
    requires prev.Some? ==> PersistenceIsOfLastSighting(id, prev.value, settings)
    requires Belongs(e, id) && (e.Seen? ==> e.ctx.settings == settings)
    ensures var next := Next(prev, e);
            next.Some? ==> PersistenceIsOfLastSighting(id, next.value, settings)
  {
    hide Risk, WholeDays;
  }

  lemma {:induction false} FoldKeepsPersistence(events: seq<Event>, id: Identity,
                                                settings: Settings)
    requires forall e :: e in events ==> Belongs(e, id)
    requires forall e :: e in events && e.Seen? ==> e.ctx.settings == settings
    ensures var row := Fold(None, events);
            row.Some? ==> PersistenceIsOfLastSighting(id, row.value, settings)
  {
    if |events| > 0 {
      hide Next, PersistenceIsOfLastSighting;
      var rest, last := events[..|events|-1], events[|events|-1];
      assert events == rest + [last];
      FoldKeepsPersistence(rest, id, settings);
      assert last in events && Belongs(last, id);
      NextKeepsPersistence(Fold(None, rest), last, id, settings);
    }
  }

  /** With fixed settings the persistence column of a reachable row is the one its own columns call
      for, exactly when the row is not resolved, or is not marked persistent, or no minimum of
      consecutive observations is asked for: a finding resolved while persistent stays marked so. */
  lemma PersistenceIsCurrentExactly(steps: seq<Step>, id: Identity, settings: Settings)
    requires WellFormed(steps) && FixedSettings(steps, settings) && id in Run(steps).rows
    ensures var row := Run(steps).rows[id];
            PersistenceIsCurrent(id, row, settings)
            <==> !row.status.Resolved? || row.persistence.NewlyObserved?
                 || settings.minConsecutive <= 0
  {
    hide Run, Events, Fold;
    RowIsFoldOfEvents(steps, id);
    EventsBelong(steps, id);
    EventsUseSettings(steps, id, settings);
    FoldKeepsPersistence(Events(steps, id), id, settings);
    hide WholeDays;
  }

  /** With fixed settings a live finding is marked persistent exactly when its streak is as long as the
      threshold and it was observed consecutively often enough. */
  lemma LiveIsPersistentExactly(steps: seq<Step>, id: Identity, settings: Settings)
    requires WellFormed(steps) && FixedSettings(steps, settings)
    requires id in Run(steps).rows && !Run(steps).rows[id].status.Resolved?
    ensures var row := Run(steps).rows[id];
            row.persistence.Persistent? <==>
              && row.lastObservedAt - row.streakStartedAt
                 >= settings.Threshold(id.detector) * 86_400_000_000
              && row.consecutive >= settings.minConsecutive
  {
    hide Run, WellFormed, FixedSettings;
    var row := Run(steps).rows[id];
    PersistenceIsCurrentExactly(steps, id, settings);
    PersistentExactly(id.detector, row.streakStartedAt, row.lastObservedAt, row.consecutive,
                      settings);
    hide Persistence;
  }

  // The default thresholds; a volume seen at the start and a week later, and gone another week later.
  const DEFAULTS: Settings := Settings(7, 1, 7, 30, 2)
  const VOLUME: Identity :=
    Identity("123456789012", "eu-central-1", EbsVolume, "vol-0a1b2c3d", UnattachedEbsVolume)
  const CANDIDATE: Candidate :=
    Candidate(VOLUME, Facts("", "", "", None, []), [], Unknown, false, None, None)

  function ScanAt(day: nat, candidates: seq<Candidate>): Step {
    ScanStep(Context(day, day * DAY, VOLUME.account, DEFAULTS),
             [Cell(VOLUME.region, VOLUME.detector, CellComplete, candidates)])
  }

  const WEEKS: seq<Step> := [ScanAt(0, [CANDIDATE]), ScanAt(7, [CANDIDATE]), ScanAt(14, [])]

  lemma OneCellStep(day: nat, candidates: seq<Candidate>)
    requires candidates == [] || candidates == [CANDIDATE]
    ensures var step := ScanAt(day, candidates);
            && Stamped(step.cells[0], step.ctx)
            && StepEvents(step, VOLUME)
               == [if candidates == [] then Missed(day * DAY)
                   else Seen(CANDIDATE, VOLUME.detector, step.ctx)]
  {
    var step := ScanAt(day, candidates);
    var cell := step.cells[0];
    assert step.cells[..0] == [];
    assert CellsIds(step.cells) == CandidateIds(candidates);
    assert Distinct(CellsIds(step.cells));
    assert CellsEvents(step.cells, step.ctx, VOLUME) == CellEvents(cell, step.ctx, VOLUME);
    if candidates == [CANDIDATE] {
      assert candidates[0] == CANDIDATE && CANDIDATE in candidates;
      assert VOLUME in Ids(candidates) && Pick(candidates, VOLUME) == CANDIDATE;
    } else {
      assert VOLUME !in Ids(candidates) && InCell(cell, step.ctx, VOLUME);
    }
  }

  lemma WeeksAreWellFormed()
    ensures WellFormed(WEEKS) && FixedSettings(WEEKS, DEFAULTS)
  {
    hide StepEvents;
    OneCellStep(0, [CANDIDATE]);
    OneCellStep(7, [CANDIDATE]);
    OneCellStep(14, []);
    hide Stamped;
    assert WEEKS[0].ctx.at <= WEEKS[1].ctx.at <= WEEKS[2].ctx.at;
  }

  /** A volume resolved while persistent: its row is still marked persistent, though its own streak
      columns no longer call for it. */
  lemma ResolvedStaysMarkedPersistent()
    ensures WellFormed(WEEKS) && FixedSettings(WEEKS, DEFAULTS) && VOLUME in Run(WEEKS).rows
    ensures var row := Run(WEEKS).rows[VOLUME];
            && row.status.Resolved? && row.persistence.Persistent?
            && !PersistenceIsCurrent(VOLUME, row, DEFAULTS)
  {
    hide Run, WellFormed, FixedSettings, StepEvents, Events, Fold, Next, PersistenceIsCurrent;
    hide Stamped;
    var first, second, third := WEEKS[0], WEEKS[1], WEEKS[2];
    WeeksAreWellFormed();
    OneCellStep(0, [CANDIDATE]);
    OneCellStep(7, [CANDIDATE]);
    OneCellStep(14, []);
    EventsOfThree(first, second, third, VOLUME);
    RowIsFoldOfEvents(WEEKS, VOLUME);
    var seen := Seen(CANDIDATE, VOLUME.detector, first.ctx);
    var again := Seen(CANDIDATE, VOLUME.detector, second.ctx);
    FoldOfThree(seen, again, Missed(14 * DAY));
    ThreeWeeks();
  }

  lemma ThreeWeeks()
    ensures var seen := Seen(CANDIDATE, VOLUME.detector, WEEKS[0].ctx);
            var again := Seen(CANDIDATE, VOLUME.detector, WEEKS[1].ctx);
            var row := Next(Next(Next(None, seen), again), Missed(14 * DAY));
            && row.Some? && row.value.status.Resolved? && row.value.persistence.Persistent?
            && !PersistenceIsCurrent(VOLUME, row.value, DEFAULTS)
  {
    hide Risk;
    assert WholeDays(7 * DAY - 0) == 7;
  }

  lemma EventsOfThree(a: Step, b: Step, c: Step, id: Identity)
    ensures Events([a, b, c], id) == StepEvents(a, id) + StepEvents(b, id) + StepEvents(c, id)
  {
    hide StepEvents;
    assert [a, b, c][..2] == [a, b] && [a, b][..1] == [a] && [a][..0] == [];
    assert Events([a], id) == StepEvents(a, id);
    assert Events([a, b], id) == StepEvents(a, id) + StepEvents(b, id);
  }

  lemma FoldOfThree(a: Event, b: Event, c: Event)
    ensures Fold(None, [a] + [b] + [c]) == Next(Next(Next(None, a), b), c)
  {
    hide Next;
    var all := [a] + [b] + [c];
    assert all[..2] == [a, b] && [a, b][..1] == [a] && [a][..0] == [];
    assert Fold(None, [a]) == Next(None, a);
  }

  // A history continued without a miss.
  ghost predicate Unbroken(h: seq<Sighting>, more: seq<Sighting>) {
    h <= more && forall k :: |h| <= k < |more| ==> more[k].seen
  }

  lemma {:induction false} SameRun(h: seq<Sighting>, more: seq<Sighting>)
    requires EverSeen(h) && LastSeen(h) == |h| - 1 && Unbroken(h, more)
    ensures EverSeen(more) && LastSeen(more) == |more| - 1
    ensures RunStart(more, |more| - 1) == RunStart(h, |h| - 1)
  {
    assert more[LastSeen(h)].seen;
    assert more[|more|-1].seen;
    if |more| == |h| {
      assert more == h;
    } else {
      var shorter := more[..|more|-1];
      assert shorter + [more[|more|-1]] == more;
      SameRun(h, shorter);
      Extend(shorter, more[|more|-1]);
    }
  }

  // Two rows of one unbroken run of sightings.
  lemma RunGoesOn(was: Row, now: Row, h: seq<Sighting>, more: seq<Sighting>)
    requires EverSeen(h) && Summarises(was, h) && !was.status.Resolved?
    requires EverSeen(more) && Summarises(now, more) && Unbroken(h, more) && Ordered(more)
    ensures !now.status.Resolved? && now.streakStartedAt == was.streakStartedAt
    ensures now.consecutive >= was.consecutive && now.lastObservedAt >= was.lastObservedAt
  {
    hide Positives, RunStart;
    SameRun(h, more);
  }

  lemma StaysPersistent(id: Identity, was: Row, now: Row, settings: Settings)
    requires PersistenceIsCurrent(id, was, settings) && PersistenceIsCurrent(id, now, settings)
    requires was.persistence.Persistent? && now.streakStartedAt == was.streakStartedAt
    requires now.consecutive >= was.consecutive && now.lastObservedAt >= was.lastObservedAt
    ensures now.persistence.Persistent?
  {
    FloorDays(was.lastObservedAt - was.streakStartedAt, settings.Threshold(id.detector));
    FloorDays(now.lastObservedAt - now.streakStartedAt, settings.Threshold(id.detector));
  }

  /** With fixed settings, once persistent a finding stays persistent until its streak ends: however
      many scans, patches and other findings' events lie in between. */
  lemma PersistentUntilStreakEnds(steps: seq<Step>, from: nat, id: Identity, settings: Settings)
    requires WellFormed(steps) && FixedSettings(steps, settings) && from <= |steps|
    requires id in Run(steps[..from]).rows
    requires var row := Run(steps[..from]).rows[id];
             row.persistence.Persistent? && !row.status.Resolved?
    requires Unbroken(Sightings(Events(steps[..from], id)), Sightings(Events(steps, id)))
    ensures id in Run(steps).rows && Run(steps).rows[id].persistence.Persistent?
    ensures Run(steps).rows[id].streakStartedAt == Run(steps[..from]).rows[id].streakStartedAt
  {
    hide Run, Events, Sightings, Positives, Summarises, Ordered;
    var early := steps[..from];
    assert WellFormed(early) && FixedSettings(early, settings);
    hide WellFormed, FixedSettings, Unbroken;
    var h, more := Sightings(Events(early, id)), Sightings(Events(steps, id));
    ReplayRefinement(early, id);
    ReplayRefinement(steps, id);
    HistoryIsOrdered(steps, id);
    StillSeen(h, more);
    var was, now := Run(early).rows[id], Run(steps).rows[id];
    RunGoesOn(was, now, h, more);
    PersistenceIsCurrentExactly(early, id, settings);
    PersistenceIsCurrentExactly(steps, id, settings);
    StaysPersistent(id, was, now, settings);
  }

  lemma StillSeen(h: seq<Sighting>, more: seq<Sighting>)
    requires EverSeen(h) && Unbroken(h, more)
    ensures EverSeen(more)
  {
    assert more[LastSeen(h)].seen;
  }
}
