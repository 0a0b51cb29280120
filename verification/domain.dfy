/** The values the scan engine works on: enumerations, finding identities, detector candidates,
    finding rows, observation rows and detection cells. */
module Domain {
  datatype Option<+T> = None | Some(value: T)

  datatype Result<+T, +E> = Ok(value: T) | Err(error: E)

  datatype ResourceType = EbsVolume | ElasticIp | Ec2Instance | EbsSnapshot
  datatype DetectorType =
    | UnattachedEbsVolume
    | UnassociatedElasticIp
    | StoppedEc2Instance
    | SnapshotMissingSourceVolume
  datatype FindingStatus = Open | Dismissed | Resolved | Ignored
  datatype PersistenceState = NewlyObserved | Persistent
  datatype RemediationRisk = Low | Review | High
  datatype CostConfidence = HighCost | MediumCost | LowCost | UnavailableCost
  datatype OwnershipStatus = Confirmed | Likely | Unknown
  datatype ScanStatus = Running | Completed | Partial | Failed
  datatype RegionStatus = RegionComplete | RegionPartial | RegionFailed | RegionSkipped
  datatype CellStatus = CellComplete | CellMissingPermission | CellFailed | CellSkipped

  // Points in time and durations, in microseconds.
  type Time = int
  const DAY: int := 86_400_000_000

  type ScanId = nat

  datatype Identity = Identity(
    account: string, region: string, resourceType: ResourceType, resourceId: string,
    detector: DetectorType)

  datatype Dependency = Dependency(kind: string, target: Option<string>, blocksRemediation: bool)

  // What a candidate says about the resource and a finding merely stores.
  datatype Facts = Facts(
    title: string, summary: string, evidence: string, createdAt: Option<Time>,
    relatedIds: seq<string>)

  datatype Price = Price(confidence: CostConfidence, monthly: Option<real>)

  datatype Candidate = Candidate(
    identity: Identity, facts: Facts, dependencies: seq<Dependency>, ownership: OwnershipStatus,
    ignored: bool, ignoreReason: Option<string>, price: Option<Price>)

  datatype Settings = Settings(
    ebsDays: int, eipDays: int, ec2Days: int, snapshotDays: int, minConsecutive: int)
  {
    function Threshold(detector: DetectorType): int {
      match detector
      case UnattachedEbsVolume => ebsDays
      case UnassociatedElasticIp => eipDays
      case StoppedEc2Instance => ec2Days
      case SnapshotMissingSourceVolume => snapshotDays
    }
  }

  // The value of a finding's mutable columns.
  datatype Row = Row(
    status: FindingStatus,
    firstObservedAt: Time, lastObservedAt: Time, streakStartedAt: Time,
    observationCount: int, consecutive: int,
    persistence: PersistenceState, risk: RemediationRisk,
    confidence: CostConfidence, monthly: Option<real>,
    ownership: OwnershipStatus, dependencies: seq<Dependency>, facts: Facts,
    ignoreReason: Option<string>, resolvedAt: Option<Time>,
    dismissedAt: Option<Time>, dismissReason: Option<string>,
    firstScan: ScanId, lastScan: ScanId, createdAt: Time, updatedAt: Time)

  type Rows = map<Identity, Row>

  datatype Observation = Observation(
    identity: Identity, scan: ScanId, at: Time, status: FindingStatus,
    persistence: PersistenceState, risk: RemediationRisk,
    monthly: Option<real>, confidence: CostConfidence, evidence: string)

  // One (region, detector) cell as the detection phase reports it.
  datatype Cell = Cell(
    region: string, detector: DetectorType, status: CellStatus, candidates: seq<Candidate>)

  // What every cell of one scan shares.
  datatype Context = Context(scan: ScanId, at: Time, account: string, settings: Settings)

  function Lookup<K, V>(m: map<K, V>, k: K): Option<V> {
    if k in m then Some(m[k]) else None
  }

  function Ids(candidates: seq<Candidate>): set<Identity> {
    set c | c in candidates :: c.identity
  }

  ghost predicate Distinct<T>(s: seq<T>) {
    forall i, j :: 0 <= i < j < |s| ==> s[i] != s[j]
  }

  lemma DistinctParts<T>(a: seq<T>, b: seq<T>)
    requires Distinct(a + b)
    ensures Distinct(a) && Distinct(b)
    ensures forall x :: x in a ==> x !in b
  {
    var all := a + b;
    assert forall i :: 0 <= i < |a| ==> all[i] == a[i];
    assert forall j :: 0 <= j < |b| ==> all[|a| + j] == b[j];
  }

  predicate InCell(cell: Cell, ctx: Context, id: Identity) {
    id.account == ctx.account && id.region == cell.region && id.detector == cell.detector
  }

  // Every detector stamps its candidates with the account, region and detector it ran for.
  ghost predicate Stamped(cell: Cell, ctx: Context) {
    forall c :: c in cell.candidates ==> InCell(cell, ctx, c.identity)
  }
}
