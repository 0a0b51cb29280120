/** The scan engine: what detecting a region yields, and a whole scan over a session. */
module Engine {
  import opened Domain
  import opened History
  import opened Scans
  import opened Sessions
  import opened Runs
  import opened ExposureHistory
  import Cells

  // How one detector's run over one region ended, ownership and prices already filled in.
  datatype DetectorOutcome =
    | Found(candidates: seq<Candidate>)
    | PermissionDenied
    | RegionUnavailable
    | ProviderFailure
    | Crashed

  const DETECTORS: seq<DetectorType> := [
    UnattachedEbsVolume, UnassociatedElasticIp, StoppedEc2Instance, SnapshotMissingSourceVolume]

  function Position(detector: DetectorType): (k: nat)
    ensures k < |DETECTORS| && DETECTORS[k] == detector
  {
    match detector
    case UnattachedEbsVolume => 0
    case UnassociatedElasticIp => 1
    case StoppedEc2Instance => 2
    case SnapshotMissingSourceVolume => 3
  }

  // The provider's answers for a scan: one outcome per region and detector.
  type Survey = (string, DetectorType) -> DetectorOutcome

  datatype RegionDetection = RegionDetection(region: string, status: RegionStatus, cells: seq<Cell>)

  function CellFor(region: string, detector: DetectorType, outcome: DetectorOutcome): Cell {
    match outcome
    case Found(candidates) => Cell(region, detector, CellComplete, candidates)
    case PermissionDenied => Cell(region, detector, CellMissingPermission, [])
    case RegionUnavailable => Cell(region, detector, CellSkipped, [])
    case ProviderFailure => Cell(region, detector, CellFailed, [])
    case Crashed => Cell(region, detector, CellFailed, [])
  }

  // The detectors that are run before the region turns out unavailable, that one included.
  function Reach(survey: Survey, region: string, from: nat): (n: nat)
    requires from <= |DETECTORS|
    ensures from <= n <= |DETECTORS|
    ensures forall k :: from <= k < n - 1 ==> !survey(region, DETECTORS[k]).RegionUnavailable?
    ensures n < |DETECTORS| ==> from < n && survey(region, DETECTORS[n - 1]).RegionUnavailable?
    decreases |DETECTORS| - from
  {
    if from == |DETECTORS| then from
    else if survey(region, DETECTORS[from]).RegionUnavailable? then from + 1
    else Reach(survey, region, from + 1)
  }

  function RegionCells(survey: Survey, region: string): seq<Cell> {
    seq(Reach(survey, region, 0), k requires 0 <= k < |DETECTORS| =>
      CellFor(region, DETECTORS[k], survey(region, DETECTORS[k])))
  }

  ghost predicate Unavailable(survey: Survey, region: string) {
    exists d :: survey(region, d).RegionUnavailable?
  }

  predicate Among(cells: seq<Cell>, status: CellStatus) {
    exists c :: c in cells && c.status == status
  }

  // What the cells of a region that stayed available make of the region.
  function StatusOfCells(cells: seq<Cell>): RegionStatus {
    if forall c :: c in cells ==> c.status.CellComplete? then RegionComplete
    else if Among(cells, CellComplete) || Among(cells, CellMissingPermission) then RegionPartial
    else RegionFailed
  }

  ghost function RegionStatusOf(survey: Survey, region: string): RegionStatus {
    if Unavailable(survey, region) then RegionSkipped
    else StatusOfCells(RegionCells(survey, region))
  }

  /** Runs the detectors over a region in their fixed order and stops where the region turns out
      unavailable: the region is then skipped but keeps the cells completed so far. */
  method DetectRegion(survey: Survey, region: string) returns (r: RegionDetection)
    ensures r.region == region && r.cells == RegionCells(survey, region)
    ensures r.status == RegionStatusOf(survey, region)
    ensures r.status.RegionComplete? <==> forall d :: survey(region, d).Found?
    ensures r.status.RegionSkipped? || |r.cells| == 4
  {
    var cells: seq<Cell> := [];
    for i := 0 to |DETECTORS|
      invariant |cells| == i && Reach(survey, region, 0) == Reach(survey, region, i)
      invariant forall k :: 0 <= k < i ==>
                  && cells[k] == CellFor(region, DETECTORS[k], survey(region, DETECTORS[k]))
                  && !survey(region, DETECTORS[k]).RegionUnavailable?
    {
      var outcome := survey(region, DETECTORS[i]);
      cells := cells + [CellFor(region, DETECTORS[i], outcome)];
      if outcome.RegionUnavailable? {
        return RegionDetection(region, RegionSkipped, cells);
      }
    }
    EveryDetector(survey, region, cells);
    r := RegionDetection(region, StatusOfCells(cells), cells);
  }

  lemma EveryDetector(survey: Survey, region: string, cells: seq<Cell>)
    requires |cells| == |DETECTORS|
    requires forall k :: 0 <= k < |DETECTORS| ==>
               && cells[k] == CellFor(region, DETECTORS[k], survey(region, DETECTORS[k]))
               && !survey(region, DETECTORS[k]).RegionUnavailable?
    ensures forall d :: !survey(region, d).RegionUnavailable?
    ensures (forall c :: c in cells ==> c.status.CellComplete?)
       <==> (forall d :: survey(region, d).Found?)
  {
    forall d
      ensures !survey(region, d).RegionUnavailable?
      ensures cells[Position(d)] == CellFor(region, d, survey(region, d))
    {
      var k := Position(d);
      assert DETECTORS[k] == d;
    }
    if forall c :: c in cells ==> c.status.CellComplete? {
      forall d
        ensures survey(region, d).Found?
      {
        assert cells[Position(d)] in cells;
      }
    }
  }

  // ---- the scan row -----------------------------------------------------------------------

  datatype ScanError = CredentialsError | RegionDiscoveryError

  class Scan {
    const id: ScanId
    const startedAt: Time
    var account: Option<string>
    var status: ScanStatus
    var requested: seq<string>
    var completed: seq<string>
    var partial: seq<string>
    var failed: seq<string>
    var skipped: seq<string>
    var tally: Tally
    var exposure: Exposure
    var error: Option<ScanError>

    constructor (id: ScanId, startedAt: Time, requested: seq<string>)
      ensures this.id == id && this.startedAt == startedAt && this.requested == requested
      ensures status == Running && tally == Tally(0, 0, 0, 0) && exposure == NO_EXPOSURE
      ensures error == None
    {
      this.id, this.startedAt, this.requested := id, startedAt, requested;
      account, status, error := None, Running, None;
      completed, partial, failed, skipped := [], [], [], [];
      tally, exposure := Tally(0, 0, 0, 0), NO_EXPOSURE;
    }
  }

  // ---- which regions ----------------------------------------------------------------------

  datatype RegionInfo = RegionInfo(name: string, optedOut: bool)

  // The first occurrences, in order.
  function Deduplicate(items: seq<string>): (r: seq<string>)
    ensures Distinct(r) && forall s :: s in r <==> s in items
  {
    if |items| == 0 then []
    else
      var rest, last := Deduplicate(items[..|items|-1]), items[|items|-1];
      if last in rest then rest else rest + [last]
  }

  /** The regions that are kept stand in the order in which each was first named. */
  lemma {:induction false} DeduplicateKeepsOrder(items: seq<string>, i: nat, j: nat)
    requires i < j < |Deduplicate(items)|
    ensures var r := Deduplicate(items);
            exists p :: 0 <= p < |items| && items[p] == r[i] && r[j] !in items[..p + 1]
  {
    var n := |items| - 1;
    var r, rest := Deduplicate(items), Deduplicate(items[..n]);
    if j < |rest| {
      DeduplicateKeepsOrder(items[..n], i, j);
      var p :| 0 <= p < n && items[..n][p] == r[i] && r[j] !in items[..n][..p + 1];
      assert items[..n][..p + 1] == items[..p + 1];
    } else {
      assert r[j] == items[n] && r[j] !in rest && r[i] == rest[i] && rest[i] in rest;
      assert r[i] in items[..n] && r[j] !in items[..n];
      var p :| 0 <= p < n && items[..n][p] == r[i];
      assert forall x :: x in items[..p + 1] ==> x in items[..n];
    }
  }

  function Names(known: seq<RegionInfo>): seq<string> {
    Deduplicate(seq(|known|, i requires 0 <= i < |known| => known[i].name))
  }

  // The provider says this region is not opted in; of two entries for a name the last one counts.
  predicate OptedOut(known: seq<RegionInfo>, region: string) {
    |known| > 0 &&
    if known[|known|-1].name == region then known[|known|-1].optedOut
    else OptedOut(known[..|known|-1], region)
  }

  function Regions(requested: Option<seq<string>>, stored: seq<string>,
                   configured: Option<seq<string>>, known: seq<RegionInfo>): seq<string>
  {
    if requested.Some? then Deduplicate(requested.value)
    else if stored != [] then stored
    else if configured.Some? then configured.value
    else Names(known)
  }

  ghost function DetectionOf(survey: Survey, known: seq<RegionInfo>, region: string)
    : RegionDetection
  {
    if OptedOut(known, region) then RegionDetection(region, RegionSkipped, [])
    else RegionDetection(region, RegionStatusOf(survey, region), RegionCells(survey, region))
  }

  ghost function Detections(survey: Survey, known: seq<RegionInfo>, regions: seq<string>)
    : seq<RegionDetection>
  {
    seq(|regions|, i requires 0 <= i < |regions| => DetectionOf(survey, known, regions[i]))
  }

  // The cells a scan reconciles, region by region.
  function AllCells(detections: seq<RegionDetection>): seq<Cell> {
    if |detections| == 0 then []
    else AllCells(detections[..|detections|-1]) + detections[|detections|-1].cells
  }

  // The region lists of a scan row.
  datatype Filed = Filed(
    completed: seq<string>, partial: seq<string>, failed: seq<string>, skipped: seq<string>)
  {
    function Add(d: RegionDetection): Filed {
      match d.status
      case RegionComplete => this.(completed := completed + [d.region])
      case RegionPartial => this.(partial := partial + [d.region])
      case RegionFailed => this.(failed := failed + [d.region])
      case RegionSkipped => this.(skipped := skipped + [d.region])
    }
  }

  function WithStatus(detections: seq<RegionDetection>, status: RegionStatus): seq<string> {
    if |detections| == 0 then []
    else
      var last := detections[|detections|-1];
      WithStatus(detections[..|detections|-1], status)
      + if last.status == status then [last.region] else []
  }

  function FiledOf(detections: seq<RegionDetection>): Filed {
    Filed(WithStatus(detections, RegionComplete), WithStatus(detections, RegionPartial),
          WithStatus(detections, RegionFailed), WithStatus(detections, RegionSkipped))
  }

  // FAILED means that nothing was runnable; regions skipped at run time do not count against it.
  function Verdict(detections: seq<RegionDetection>, runnable: bool): ScanStatus {
    if !runnable then ScanStatus.Failed
    else if exists d :: d in detections && (d.status.RegionPartial? || d.status.RegionFailed?)
    then ScanStatus.Partial
    else Completed
  }

  predicate Runnable(known: seq<RegionInfo>, regions: seq<string>) {
    exists r :: r in regions && !OptedOut(known, r)
  }

  lemma {:induction false} NoneWithStatus(detections: seq<RegionDetection>, status: RegionStatus)
    ensures WithStatus(detections, status) == []
       <==> forall d :: d in detections ==> d.status != status
  {
    if |detections| > 0 {
      var rest, last := detections[..|detections|-1], detections[|detections|-1];
      NoneWithStatus(rest, status);
      assert forall d :: d in detections <==> d in rest || d == last;
    }
  }

  // The detector failed without a word on permissions or on the region.
  predicate Broke(outcome: DetectorOutcome) {
    outcome.ProviderFailure? || outcome.Crashed?
  }

  /** What becomes of a region that is scanned: skipped when some detector finds it unavailable, complete
      when all answer, failed when all break, partial when an answer or a refusal stands beside
      something else. */
  lemma RegionStatusExactly(survey: Survey, region: string)
    ensures var status := RegionStatusOf(survey, region);
            && (status.RegionSkipped? <==> exists d :: survey(region, d).RegionUnavailable?)
            && (status.RegionComplete? <==> forall d :: survey(region, d).Found?)
            && (status.RegionFailed? <==> forall d :: Broke(survey(region, d)))
            && (status.RegionPartial? <==>
                  && (forall d :: !survey(region, d).RegionUnavailable?)
                  && (exists d :: !survey(region, d).Found?)
                  && exists d :: survey(region, d).Found? || survey(region, d).PermissionDenied?)
  {
    if !Unavailable(survey, region) {
      assert Reach(survey, region, 0) == |DETECTORS|;
      var cells := RegionCells(survey, region);
      EveryDetector(survey, region, cells);
      SomeDetector(survey, region, cells);
    } else {
      var d :| survey(region, d).RegionUnavailable?;
      assert !survey(region, d).Found? && !Broke(survey(region, d));
    }
  }

  lemma SomeDetector(survey: Survey, region: string, cells: seq<Cell>)
    requires |cells| == |DETECTORS|
    requires forall k :: 0 <= k < |DETECTORS| ==>
               cells[k] == CellFor(region, DETECTORS[k], survey(region, DETECTORS[k]))
    ensures Among(cells, CellComplete) || Among(cells, CellMissingPermission)
       <==> exists d :: survey(region, d).Found? || survey(region, d).PermissionDenied?
  {
    if d :| survey(region, d).Found? || survey(region, d).PermissionDenied? {
      assert DETECTORS[Position(d)] == d;
      assert cells[Position(d)] == CellFor(region, d, survey(region, d));
      assert cells[Position(d)] in cells;
    }
  }

  /** Each cell of a region is one detector's, in the fixed order, and complete exactly when that
      detector answered, with what it found; the cells stop at the first detector that finds the region
      unavailable, and only there. */
  lemma RegionCellsExactly(survey: Survey, region: string, k: nat)
    requires k < |RegionCells(survey, region)|
    ensures var cells := RegionCells(survey, region);
            var outcome := survey(region, DETECTORS[k]);
            && cells[k].region == region && cells[k].detector == DETECTORS[k]
            && (cells[k].status.CellComplete? <==> outcome.Found?)
            && (cells[k].status.CellMissingPermission? <==> outcome.PermissionDenied?)
            && (cells[k].status.CellFailed? <==> Broke(outcome))
            && cells[k].candidates == (if outcome.Found? then outcome.candidates else [])
            && (outcome.RegionUnavailable? ==> k == |cells| - 1)
            && (k == |cells| - 1 ==> outcome.RegionUnavailable? || k == |DETECTORS| - 1)
  {
  }

  // ---- the four lists of a scan row -------------------------------------------------------

  // The regions that meet a condition, in order.
  ghost function Those(regions: seq<string>, p: string -> bool): seq<string> {
    if |regions| == 0 then []
    else
      var last := regions[|regions|-1];
      Those(regions[..|regions|-1], p) + if p(last) then [last] else []
  }

  ghost predicate Answered(survey: Survey, known: seq<RegionInfo>, region: string) {
    !OptedOut(known, region) && forall d :: survey(region, d).Found?
  }

  ghost predicate AllBroke(survey: Survey, known: seq<RegionInfo>, region: string) {
    !OptedOut(known, region) && forall d :: Broke(survey(region, d))
  }

  ghost predicate Closed(survey: Survey, known: seq<RegionInfo>, region: string) {
    OptedOut(known, region) || exists d :: survey(region, d).RegionUnavailable?
  }

  // Neither closed nor answered in full, but answered or refused by some detector.
  ghost predicate PartlyAnswered(survey: Survey, known: seq<RegionInfo>, region: string) {
    && !Closed(survey, known, region) && !Answered(survey, known, region)
    && exists d :: survey(region, d).Found? || survey(region, d).PermissionDenied?
  }

  lemma StatusOfDetection(survey: Survey, known: seq<RegionInfo>, region: string)
    ensures var d := DetectionOf(survey, known, region);
            && d.region == region
            && (d.status == RegionComplete <==> Answered(survey, known, region))
            && (d.status == RegionPartial <==> PartlyAnswered(survey, known, region))
            && (d.status == RegionFailed <==> AllBroke(survey, known, region))
            && (d.status == RegionSkipped <==> Closed(survey, known, region))
  {
    hide RegionStatusOf, RegionCells, OptedOut, Broke;
    RegionStatusExactly(survey, region);
  }

  lemma {:induction false} WithStatusIs(survey: Survey, known: seq<RegionInfo>,
                                        regions: seq<string>, status: RegionStatus,
                                        p: string -> bool)
    requires forall r :: r in regions ==>
               (DetectionOf(survey, known, r).status == status <==> p(r))
    ensures WithStatus(Detections(survey, known, regions), status) == Those(regions, p)
  {
    hide DetectionOf;
    if |regions| > 0 {
      var n := |regions| - 1;
      assert Detections(survey, known, regions)[..n] == Detections(survey, known, regions[..n]);
      WithStatusIs(survey, known, regions[..n], status, p);
      StatusOfDetection(survey, known, regions[n]);
    }
  }

  /** The four lists of a scan row hold exactly the regions in which every detector answered, some
      answered or was refused, every one broke, and which are not opted in or turned out unavailable;
      each in the order of the scan. */
  lemma FiledExactly(survey: Survey, known: seq<RegionInfo>, regions: seq<string>)
    ensures FiledOf(Detections(survey, known, regions))
         == Filed(Those(regions, r => Answered(survey, known, r)),
                  Those(regions, r => PartlyAnswered(survey, known, r)),
                  Those(regions, r => AllBroke(survey, known, r)),
                  Those(regions, r => Closed(survey, known, r)))
  {
    forall r
      ensures var d := DetectionOf(survey, known, r);
              && (d.status == RegionComplete <==> Answered(survey, known, r))
              && (d.status == RegionPartial <==> PartlyAnswered(survey, known, r))
              && (d.status == RegionFailed <==> AllBroke(survey, known, r))
              && (d.status == RegionSkipped <==> Closed(survey, known, r))
    {
      StatusOfDetection(survey, known, r);
    }
    hide DetectionOf, Detections, WithStatus, Answered, PartlyAnswered, AllBroke, Closed;
    WithStatusIs(survey, known, regions, RegionComplete, r => Answered(survey, known, r));
    WithStatusIs(survey, known, regions, RegionPartial, r => PartlyAnswered(survey, known, r));
    WithStatusIs(survey, known, regions, RegionFailed, r => AllBroke(survey, known, r));
    WithStatusIs(survey, known, regions, RegionSkipped, r => Closed(survey, known, r));
  }

  /** A region is opted out exactly when the last entry the provider lists under its name says so. */
  lemma {:induction false} OptedOutExactly(known: seq<RegionInfo>, region: string)
    ensures OptedOut(known, region)
       <==> exists i :: 0 <= i < |known| && known[i].name == region && known[i].optedOut
                        && forall j :: i < j < |known| ==> known[j].name != region
  {
    if |known| > 0 {
      var n := |known| - 1;
      OptedOutExactly(known[..n], region);
      if known[n].name != region && OptedOut(known[..n], region) {
        var i :| 0 <= i < n && known[..n][i].name == region && known[..n][i].optedOut
                 && forall j :: i < j < n ==> known[..n][j].name != region;
        assert known[i] == known[..n][i];
        assert forall j :: i < j < n ==> known[j] == known[..n][j];
      }
    }
  }

  /** Which regions a scan is of: those requested, each once; or else those stored with the scan; or else
      those configured; or else every region the provider knows, each once. */
  lemma RegionsExactly(requested: Option<seq<string>>, stored: seq<string>,
                       configured: Option<seq<string>>, known: seq<RegionInfo>)
    ensures var r := Regions(requested, stored, configured, known);
            && (requested.Some? ==> Distinct(r) && forall s :: s in r <==> s in requested.value)
            && (requested.None? && stored != [] ==> r == stored)
            && (requested.None? && stored == [] && configured.Some? ==> r == configured.value)
            && (requested.None? && stored == [] && configured.None? ==>
                  Distinct(r)
                  && forall s :: s in r <==>
                       exists i :: 0 <= i < |known| && known[i].name == s)
  {
    var names := seq(|known|, i requires 0 <= i < |known| => known[i].name);
    forall s
      ensures s in names <==> exists i :: 0 <= i < |known| && known[i].name == s
    {
      if i :| 0 <= i < |known| && known[i].name == s {
        assert names[i] == s;
      }
    }
    hide Distinct;
  }

  // A region that does not stand in the way of a completed scan.
  ghost predicate Unproblematic(survey: Survey, known: seq<RegionInfo>, region: string) {
    || OptedOut(known, region) || Unavailable(survey, region)
    || forall d :: survey(region, d).Found?
  }

  lemma UnproblematicIs(survey: Survey, known: seq<RegionInfo>, region: string)
    ensures var status := DetectionOf(survey, known, region).status;
            Unproblematic(survey, known, region)
            <==> !status.RegionPartial? && !status.RegionFailed?
  {
    RegionStatusExactly(survey, region);
    hide RegionStatusOf, RegionCells, OptedOut;
  }

  /** When a scan that got as far as its regions ends how: failed exactly when no region is opted in,
      and completed exactly when some is and every region is not opted in, turned out unavailable, or
      answered every detector. A scan whose regions all turn out unavailable is completed. */
  lemma VerdictExactly(survey: Survey, known: seq<RegionInfo>, regions: seq<string>)
    ensures var verdict := Verdict(Detections(survey, known, regions), Runnable(known, regions));
            && (verdict.Failed? <==> forall r :: r in regions ==> OptedOut(known, r))
            && (verdict.Completed? <==>
                  && (exists r :: r in regions && !OptedOut(known, r))
                  && forall r :: r in regions ==> Unproblematic(survey, known, r))
  {
    var detections := Detections(survey, known, regions);
    hide RegionStatusOf, RegionCells, Unavailable, OptedOut;
    forall r | r in regions
      ensures var d := DetectionOf(survey, known, r);
              && d in detections
              && (Unproblematic(survey, known, r)
                  <==> !d.status.RegionPartial? && !d.status.RegionFailed?)
    {
      var i :| 0 <= i < |regions| && regions[i] == r;
      assert detections[i] == DetectionOf(survey, known, r);
      UnproblematicIs(survey, known, r);
    }
    hide DetectionOf;
    forall d | d in detections
      ensures exists r :: r in regions && d == DetectionOf(survey, known, r)
    {
      var i :| 0 <= i < |detections| && detections[i] == d;
      assert regions[i] in regions;
    }
  }

  lemma OnlyRegion(d: RegionDetection)
    requires d.status == RegionSkipped
    ensures FiledOf([d]) == Filed([], [], [], [d.region])
  {
    assert [d][..0] == [];
    assert forall status :: WithStatus([d], status)
                            == if status == RegionSkipped then [d.region] else [];
  }

  const NOWHERE: Survey := (region: string, d: DetectorType) => RegionUnavailable

  lemma NowhereIsSkipped(known: seq<RegionInfo>, region: string)
    requires !OptedOut(known, region)
    ensures var d := DetectionOf(NOWHERE, known, region);
            && d.region == region && d.status == RegionSkipped
            && forall c :: c in d.cells ==> !c.status.CellComplete?
    ensures Unavailable(NOWHERE, region)
  {
    assert NOWHERE(region, UnattachedEbsVolume).RegionUnavailable?;
  }

  /** A scan in which no region ran still completes: one opted-in region whose every detector finds it
      unavailable. */
  lemma AllUnavailableIsCompleted(region: string)
    ensures var known := [RegionInfo(region, false)];
            var detections := Detections(NOWHERE, known, [region]);
            && Verdict(detections, Runnable(known, [region])) == Completed
            && FiledOf(detections) == Filed([], [], [], [region])
            && forall c :: c in AllCells(detections) ==> !c.status.CellComplete?
  {
    var known, regions := [RegionInfo(region, false)], [region];
    assert region in regions && !OptedOut(known, region);
    NowhereIsSkipped(known, region);
    VerdictExactly(NOWHERE, known, regions);
    hide DetectionOf, OptedOut, Unavailable, Verdict, Runnable, FiledOf;
    var d := DetectionOf(NOWHERE, known, region);
    assert Detections(NOWHERE, known, regions) == [d];
    assert [d][..0] == [];
    assert AllCells([d]) == AllCells([]) + d.cells;
    OnlyRegion(d);
  }

  // ---- the scan ---------------------------------------------------------------------------

  ghost function At(session: Session, scan: Scan, observed: seq<Finding>): Progress
    reads session, session.findings.Values, scan
  {
    Progress(session.Rows(), session.observations, scan.tally, Identities(observed))
  }

  lemma IdentitiesAppend(a: seq<Finding>, b: seq<Finding>)
    ensures Identities(a + b) == Identities(a) + Identities(b)
  {
  }

  // Reconciles one cell, counting into the scan row. None is the integrity error.
  method ReconcileCell(session: Session, scan: Scan, cell: Cell, ctx: Context,
                       observed: seq<Finding>)
    returns (r: Option<seq<Finding>>)
    requires session.Valid() && session.Owns(observed)
    modifies session, session.findings.Values, scan`tally
    ensures session.Valid() && session.Grows()
    ensures r.None? <==> PlayCell(old(At(session, scan, observed)), cell, ctx).None?
    ensures r.Some? ==>
              && PlayCell(old(At(session, scan, observed)), cell, ctx)
                 == Some(At(session, scan, r.value))
              && session.Owns(r.value)
  {
    hide AfterCell, CellLog, CellTally, CellIds, Distinct, Unlogged;
    var one := session.Reconcile(cell, ctx);
    if one.None? {
      return None;
    }
    scan.tally := scan.tally.Plus(one.value.tally);
    IdentitiesAppend(observed, one.value.observed);
    r := Some(observed + one.value.observed);
  }

  // Reconciles the cells of one region in order.
  method ReconcileCells(session: Session, scan: Scan, cells: seq<Cell>, ctx: Context,
                        observed: seq<Finding>)
    returns (r: Option<seq<Finding>>)
    requires session.Valid() && session.Owns(observed)
    modifies session, session.findings.Values, scan`tally
    ensures session.Valid() && session.Grows()
    ensures r.None? <==> PlayCells(old(At(session, scan, observed)), cells, ctx).None?
    ensures r.Some? ==>
              && PlayCells(old(At(session, scan, observed)), cells, ctx)
                 == Some(At(session, scan, r.value))
              && session.Owns(r.value)
  {
    ghost var start := At(session, scan, observed);
    var all := observed;
    for i := 0 to |cells|
      invariant session.Valid() && session.Grows() && session.Owns(all)
      invariant PlayCells(start, cells[..i], ctx) == Some(At(session, scan, all))
    {
      PlayCellsExtends(start, cells, i, ctx);
      var next := ReconcileCell(session, scan, cells[i], ctx, all);
      if next.None? {
        return None;
      }
      all := next.value;
    }
    assert cells[..|cells|] == cells;
    r := Some(all);
  }

  // Adds up what the observed findings cost, reading the finding objects as they are now.
  method SumExposure(session: Session, observed: seq<Finding>) returns (sum: Exposure)
    requires session.Valid() && session.Owns(observed)
    ensures sum == RowsExposure(session.Rows(), Identities(observed))
  {
    var headline, low := 0.0, 0.0;
    for i := 0 to |observed|
      invariant Exposure(headline, low)
             == RowsExposure(session.Rows(), Identities(observed[..i]))
    {
      var f := observed[i];
      assert Identities(observed[..i + 1]) == Identities(observed[..i]) + [f.identity];
      assert session.Rows()[f.identity] == f.Value();
      if f.status.Open? && f.monthly.Some? {
        if f.confidence.HighCost? || f.confidence.MediumCost? {
          headline := headline + f.monthly.value;
        } else if f.confidence.LowCost? {
          low := low + f.monthly.value;
        }
      }
    }
    assert observed[..|observed|] == observed;
    sum := Exposure(headline, low);
  }

  // Detects every region that is not opted out.
  method DetectAll(survey: Survey, known: seq<RegionInfo>, regions: seq<string>)
    returns (detections: seq<RegionDetection>, runnable: bool)
    ensures detections == Detections(survey, known, regions)
    ensures runnable == Runnable(known, regions)
  {
    detections, runnable := [], false;
    for i := 0 to |regions|
      invariant detections == Detections(survey, known, regions[..i])
      invariant runnable == Runnable(known, regions[..i])
    {
      var region := regions[i];
      assert forall r :: r in regions[..i + 1] <==> r in regions[..i] || r == region;
      if OptedOut(known, region) {
        detections := detections + [RegionDetection(region, RegionSkipped, [])];
      } else {
        runnable := true;
        var detection := DetectRegion(survey, region);
        detections := detections + [detection];
      }
    }
    assert regions[..|regions|] == regions;
  }

  // Reconciles the cells of all regions in order. None is the integrity error.
  method ReconcileAll(session: Session, scan: Scan, detections: seq<RegionDetection>, ctx: Context)
    returns (r: Option<seq<Finding>>)
    requires session.Valid() && scan.tally == Tally(0, 0, 0, 0)
    modifies session, session.findings.Values, scan`tally
    ensures session.Valid() && session.Grows()
    ensures r.Some? <==> Commits(old(session.observations), AllCells(detections), ctx.scan)
    ensures r.Some? ==>
              && At(session, scan, r.value)
                 == ScanProgress(old(session.Rows()), old(session.observations),
                                 AllCells(detections), ctx)
              && session.Owns(r.value)
  {
    assert Identities([]) == [];
    ghost var start := At(session, scan, []);
    PlayCellsMeans(start.rows, start.log, AllCells(detections), ctx);
    var observed: seq<Finding> := [];
    for i := 0 to |detections|
      invariant session.Valid() && session.Grows() && session.Owns(observed)
      invariant PlayCells(start, AllCells(detections[..i]), ctx)
             == Some(At(session, scan, observed))
    {
      NextRegion(start, detections, i, ctx);
      var next := ReconcileCells(session, scan, detections[i].cells, ctx, observed);
      if next.None? {
        return None;
      }
      observed := next.value;
    }
    assert detections[..|detections|] == detections;
    r := Some(observed);
  }

  lemma {:induction false} AllCellsAppend(a: seq<RegionDetection>, b: seq<RegionDetection>)
    ensures AllCells(a + b) == AllCells(a) + AllCells(b)
  {
    if |b| == 0 {
      assert a + b == a;
    } else {
      AllCellsAppend(a, b[..|b|-1]);
      assert (a + b)[..|a + b|-1] == a + b[..|b|-1] && (a + b)[|a + b|-1] == b[|b|-1];
    }
  }

  // The next region decides whether the scan can go on.
  lemma NextRegion(p: Progress, detections: seq<RegionDetection>, i: nat, ctx: Context)
    requires i < |detections|
    ensures var before := PlayCells(p, AllCells(detections[..i]), ctx);
            && PlayCells(p, AllCells(detections[..i + 1]), ctx)
               == (if before.None? then None
                   else PlayCells(before.value, detections[i].cells, ctx))
            && (PlayCells(p, AllCells(detections[..i + 1]), ctx).None?
                ==> PlayCells(p, AllCells(detections), ctx).None?)
  {
    hide PlayCells;
    assert detections[..i + 1][..i] == detections[..i];
    PlayCellsAppend(p, AllCells(detections[..i]), detections[i].cells, ctx);
    AllCellsAppend(detections[..i + 1], detections[i + 1..]);
    assert detections == detections[..i + 1] + detections[i + 1..];
    PlayCellsAppend(p, AllCells(detections[..i + 1]), AllCells(detections[i + 1..]), ctx);
  }

  // Sorts the regions into the four lists.
  method File(detections: seq<RegionDetection>) returns (filed: Filed)
    ensures filed == FiledOf(detections)
  {
    filed := Filed([], [], [], []);
    for i := 0 to |detections|
      invariant filed == FiledOf(detections[..i])
    {
      assert detections[..i + 1][..i] == detections[..i];
      filed := filed.Add(detections[i]);
    }
    assert detections[..|detections|] == detections;
  }

  method Settle(ghost detections: seq<RegionDetection>, filed: Filed, runnable: bool)
    returns (verdict: ScanStatus)
    requires filed == FiledOf(detections)
    ensures verdict == Verdict(detections, runnable)
  {
    NoneWithStatus(detections, RegionPartial);
    NoneWithStatus(detections, RegionFailed);
    verdict := if !runnable then ScanStatus.Failed
               else if filed.partial != [] || filed.failed != [] then ScanStatus.Partial
               else Completed;
  }

  // Fills in the scan row once every cell is reconciled.
  method Conclude(session: Session, scan: Scan, detections: seq<RegionDetection>, runnable: bool,
                  observed: seq<Finding>)
    requires session.Valid() && session.Owns(observed)
    modifies scan`completed, scan`partial, scan`failed, scan`skipped, scan`exposure, scan`status
    ensures Filed(scan.completed, scan.partial, scan.failed, scan.skipped) == FiledOf(detections)
    ensures scan.exposure == RowsExposure(session.Rows(), Identities(observed))
    ensures scan.status == Verdict(detections, runnable)
  {
    hide RowsExposure, Verdict, FiledOf;
    var filed := File(detections);
    var verdict := Settle(detections, filed, runnable);
    scan.completed, scan.partial := filed.completed, filed.partial;
    scan.failed, scan.skipped := filed.failed, filed.skipped;
    scan.exposure := SumExposure(session, observed);
    scan.status := verdict;
  }

  // What a scan that got through leaves in the session and in the scan row.
  ghost predicate Done(session: Session, scan: Scan, detections: seq<RegionDetection>,
                       runnable: bool, rows: Rows, log: seq<Observation>, ctx: Context)
    reads session, session.findings.Values, scan
  {
    var cells := AllCells(detections);
    && session.Rows() == AfterCells(rows, cells, ctx)
    && session.observations == log + CellsLog(rows, cells, ctx)
    && scan.tally == CellsTally(rows, cells, ctx)
    && scan.exposure == RowsExposure(session.Rows(), CellsIds(cells))
    && scan.status == Verdict(detections, runnable)
    && Filed(scan.completed, scan.partial, scan.failed, scan.skipped) == FiledOf(detections)
  }

  // Detects, reconciles and adds up; false is an escaping integrity error.
  method ScanRegions(session: Session, scan: Scan, ctx: Context, survey: Survey,
                     known: seq<RegionInfo>, regions: seq<string>)
    returns (finished: bool)
    requires session.Valid() && scan.tally == Tally(0, 0, 0, 0)
    modifies session, session.findings.Values, scan
    ensures session.Valid() && session.Grows()
    ensures unchanged(scan`account, scan`requested, scan`error)
    ensures finished <==>
              Commits(old(session.observations), AllCells(Detections(survey, known, regions)),
                      ctx.scan)
    ensures finished ==>
              Done(session, scan, Detections(survey, known, regions), Runnable(known, regions),
                   old(session.Rows()), old(session.observations), ctx)
  {
    hide AfterCells, CellsLog, CellsTally, CellsIds, RowsExposure, Commits, Verdict, WithStatus;
    hide Detections, AllCells, Runnable, Lookup, InCell, Identities;
    var detections, runnable := DetectAll(survey, known, regions);
    var observed := ReconcileAll(session, scan, detections, ctx);
    finished := observed.Some?;
    if finished {
      Conclude(session, scan, detections, runnable, observed.value);
    }
  }

  datatype IdentityAnswer = Account(id: string) | CredentialsRejected | IdentityCrashed
  datatype DiscoveryAnswer = Known(regions: seq<RegionInfo>) | DiscoveryRefused | DiscoveryCrashed

  /** A whole scan on a session. The result is false when an exception escapes: nothing the session
      or the scan row hold is then committed. */
  method RunScan(session: Session, scan: Scan, identity: IdentityAnswer,
                 discovery: DiscoveryAnswer, survey: Survey, settings: Settings,
                 requested: Option<seq<string>>, configured: Option<seq<string>>)
    returns (finished: bool)
    requires session.Valid() && scan.tally == Tally(0, 0, 0, 0)
    modifies session, session.findings.Values, scan
    ensures session.Valid() && session.Grows()
    ensures finished && (!identity.Account? || !discovery.Known?) ==>
              && session.Rows() == old(session.Rows())
              && session.observations == old(session.observations)
              && scan.status == ScanStatus.Failed
              && scan.error == Some(if identity.Account? then RegionDiscoveryError
                                    else CredentialsError)
              && scan.account == (if identity.Account? then Some(identity.id)
                                  else old(scan.account))
              && scan.tally == Tally(0, 0, 0, 0)
              && unchanged(scan`exposure, scan`requested, scan`completed, scan`partial, scan`failed,
                           scan`skipped)
    ensures !identity.Account? ==>
              (finished <==> old(scan.status).Running? && identity.CredentialsRejected?)
    ensures identity.Account? && !discovery.Known? ==>
              (finished <==> old(scan.status).Running? && discovery.DiscoveryRefused?)
    ensures identity.Account? && discovery.Known? ==>
              var regions := Regions(requested, old(scan.requested), configured, discovery.regions);
              var detections := Detections(survey, discovery.regions, regions);
              var cells := AllCells(detections);
              var ctx := Context(scan.id, scan.startedAt, identity.id, settings);
              && (finished <==> old(scan.status).Running?
                                && Commits(old(session.observations), cells, scan.id))
              && (finished ==>
                    && Done(session, scan, detections, Runnable(discovery.regions, regions),
                            old(session.Rows()), old(session.observations), ctx)
                    && scan.account == Some(identity.id) && scan.requested == regions
                    && scan.error == old(scan.error))
  {
    hide Done, Commits, Detections, AllCells, Runnable, Regions;
    if !scan.status.Running? || identity.IdentityCrashed? {
      return false;
    }
    if identity.CredentialsRejected? {
      scan.status := ScanStatus.Failed;
      scan.error := Some(CredentialsError);
      return true;
    }
    scan.account := Some(identity.id);
    if discovery.DiscoveryCrashed? {
      return false;
    }
    if discovery.DiscoveryRefused? {
      scan.status := ScanStatus.Failed;
      scan.error := Some(RegionDiscoveryError);
      return true;
    }
    var regions := Regions(requested, scan.requested, configured, discovery.regions);
    scan.requested := regions;
    var ctx := Context(scan.id, scan.startedAt, identity.id, settings);
    finished := ScanRegions(session, scan, ctx, survey, discovery.regions, regions);
  }

  // ---- a finished scan is a step of a run -------------------------------------------------

  /** A scan that gets through is exactly one step of a run, totals included. */
  lemma DoneIsStep(session: Session, scan: Scan, detections: seq<RegionDetection>, runnable: bool,
                   db: Db, ctx: Context)
    requires Done(session, scan, detections, runnable, db.rows, db.log, ctx)
    requires Commits(db.log, AllCells(detections), ctx.scan)
    ensures Apply(db, ScanStep(ctx, AllCells(detections)))
         == Db(session.Rows(), session.observations,
               db.scans[ctx.scan := Totals(scan.tally, scan.exposure)])
  {
    hide AfterCells, CellsLog, CellsTally, RowsExposure, CellsIds, Commits;
  }

  // Detectors stamp what they find with the account, the region and their own type.
  ghost predicate Stamps(survey: Survey, account: string) {
    forall region, d :: survey(region, d).Found? ==>
      forall c :: c in survey(region, d).candidates ==>
        c.identity.account == account && c.identity.region == region && c.identity.detector == d
  }

  lemma {:induction false} CellsComeFromSurvey(survey: Survey, known: seq<RegionInfo>,
                                               regions: seq<string>, c: Cell)
    requires c in AllCells(Detections(survey, known, regions))
    ensures c == CellFor(c.region, c.detector, survey(c.region, c.detector))
  {
    var detections := Detections(survey, known, regions);
    var n := |regions| - 1;
    assert detections[..n] == Detections(survey, known, regions[..n]);
    if c in detections[n].cells {
      var k :| 0 <= k < |detections[n].cells| && detections[n].cells[k] == c;
      assert RegionCells(survey, regions[n])[k] == c;
    } else {
      CellsComeFromSurvey(survey, known, regions[..n], c);
    }
  }

  /** Whatever the provider answers, the cells a scan reconciles meet what the theorems about whole
      runs ask of them, even when a region is listed twice. */
  lemma ScanCellsAreSound(survey: Survey, known: seq<RegionInfo>, regions: seq<string>,
                          ctx: Context)
    requires Stamps(survey, ctx.account)
    ensures Sound(AllCells(Detections(survey, known, regions)), ctx)
  {
    hide AllCells, Detections;
    var cells := AllCells(Detections(survey, known, regions));
    forall c | c in cells
      ensures c == CellFor(c.region, c.detector, survey(c.region, c.detector))
      ensures Stamped(c, ctx)
    {
      CellsComeFromSurvey(survey, known, regions, c);
    }
  }

  /** What a scan may resolve: only a live finding of its own account whose detector answered for the
      finding's region, in a region the scan covers and that is not opted out, without naming it. A
      refused permission, a failure or an unavailable region resolves nothing. */
  lemma OnlyAnswersResolve(db: Db, survey: Survey, known: seq<RegionInfo>, regions: seq<string>,
                           ctx: Context, id: Identity)
    requires Stamps(survey, ctx.account) && id in db.rows && !db.rows[id].status.Resolved?
    ensures var cells := AllCells(Detections(survey, known, regions));
            var after := Apply(db, ScanStep(ctx, cells)).rows;
            && id in after
            && (after[id].status.Resolved? ==>
                  && id.account == ctx.account
                  && id.region in regions && !OptedOut(known, id.region)
                  && survey(id.region, id.detector).Found?
                  && id !in Ids(survey(id.region, id.detector).candidates))
  {
    hide Apply, AllCells, Detections, OptedOut, RegionCells;
    var cells := AllCells(Detections(survey, known, regions));
    ScanCellsAreSound(survey, known, regions, ctx);
    assert forall c :: c in cells ==> Stamped(c, ctx);
    hide Stamped, Agree;
    Cells.ResolutionSafety(db, ScanStep(ctx, cells), id);
    if Cells.Omits(cells, ctx, id) {
      var c :| c in cells && c.status.CellComplete? && InCell(c, ctx, id)
               && id !in Ids(c.candidates);
      CellsComeFromSurvey(survey, known, regions, c);
      CellsComeFromRegions(survey, known, regions, c);
    }
  }

  lemma {:induction false} CellsComeFromRegions(survey: Survey, known: seq<RegionInfo>,
                                                regions: seq<string>, c: Cell)
    requires c in AllCells(Detections(survey, known, regions))
    ensures c.region in regions && !OptedOut(known, c.region)
  {
    var detections := Detections(survey, known, regions);
    var n := |regions| - 1;
    assert detections[..n] == Detections(survey, known, regions[..n]);
    if c in detections[n].cells {
      var k :| 0 <= k < |detections[n].cells| && detections[n].cells[k] == c;
      assert RegionCells(survey, regions[n])[k] == c;
      assert regions[n] in regions;
    } else {
      CellsComeFromRegions(survey, known, regions[..n], c);
    }
  }
}
