/** Persistence, remediation risk and script eligibility of a finding. */
module Classification {
  import opened Domain

  // Whole days in a duration: Python's timedelta.days floors, as does division by DAY here.
  function WholeDays(duration: int): int {
    duration / DAY
  }

  function Persistence(detector: DetectorType, streakStartedAt: Time, lastObservedAt: Time,
                       consecutive: int, settings: Settings): PersistenceState
  {
    if WholeDays(lastObservedAt - streakStartedAt) >= settings.Threshold(detector)
       && consecutive >= settings.minConsecutive
    then Persistent else NewlyObserved
  }

  predicate Blocked(dependencies: seq<Dependency>) {
    exists d :: d in dependencies && d.blocksRemediation
  }

  function MaxRisk(first: RemediationRisk, second: RemediationRisk): RemediationRisk {
    if first.High? || (first.Review? && !second.High?) || second.Low? then first else second
  }

  predicate HasGuardedScript(detector: DetectorType) {
    detector.UnattachedEbsVolume? || detector.UnassociatedElasticIp?
  }

  function Risk(detector: DetectorType, persistence: PersistenceState, ownership: OwnershipStatus,
                dependencies: seq<Dependency>): RemediationRisk
  {
    var base := if HasGuardedScript(detector) && persistence.Persistent? then Low else Review;
    var owned := match ownership
                 case Confirmed => High
                 case Likely => MaxRisk(base, Review)
                 case Unknown => base;
    if Blocked(dependencies) then High else owned
  }

  datatype ScriptKind = GuardedRemediation | Investigation

  datatype Reason =
    | FindingNotOpen
    | DetectorHasNoDestructiveScript
    | CloudFormationOwned
    | BlockingDependency
    | StillNewlyObserved
    | RiskIsHigh
    | RiskIsReview

  function ScriptKindFor(detector: DetectorType, row: Row): (ScriptKind, Option<Reason>) {
    if !row.status.Open? then (Investigation, Some(FindingNotOpen))
    else if !HasGuardedScript(detector) then (Investigation, Some(DetectorHasNoDestructiveScript))
    else if row.ownership.Confirmed? then (Investigation, Some(CloudFormationOwned))
    else if Blocked(row.dependencies) then (Investigation, Some(BlockingDependency))
    else if row.persistence.NewlyObserved? then (Investigation, Some(StillNewlyObserved))
    else if row.risk.High? then (Investigation, Some(RiskIsHigh))
    else if row.risk.Review? then (Investigation, Some(RiskIsReview))
    else (GuardedRemediation, None)
  }

  // The stored risk is the one the stored persistence, ownership and dependencies call for.
  ghost predicate RiskIsCurrent(detector: DetectorType, row: Row) {
    row.risk == Risk(detector, row.persistence, row.ownership, row.dependencies)
  }

  /** With a current risk column the seven-way chain collapses to three tests. */
  lemma GuardedExactly(detector: DetectorType, row: Row)
    requires RiskIsCurrent(detector, row)
    ensures ScriptKindFor(detector, row).0.GuardedRemediation?
       <==> row.status.Open? && HasGuardedScript(detector) && row.risk.Low?
    ensures ScriptKindFor(detector, row).1.None?
       <==> ScriptKindFor(detector, row).0.GuardedRemediation?
    ensures row.risk.Low? ==> row.persistence.Persistent? && HasGuardedScript(detector)
  {
  }

  /** When a risk is low, high, or neither, in terms of the finding alone. */
  lemma RiskExactly(detector: DetectorType, persistence: PersistenceState,
                    ownership: OwnershipStatus, dependencies: seq<Dependency>)
    ensures var risk := Risk(detector, persistence, ownership, dependencies);
            var blocked := exists d :: d in dependencies && d.blocksRemediation;
            && (risk.High? <==> ownership.Confirmed? || blocked)
            && (risk.Low? <==>
                  && (detector.UnattachedEbsVolume? || detector.UnassociatedElasticIp?)
                  && persistence.Persistent? && ownership.Unknown? && !blocked)
  {
  }

  /** Which script a finding with a current risk column is offered and, if it is not the guarded one,
      which of the reasons that apply is given. */
  lemma OfferExactly(detector: DetectorType, row: Row)
    requires RiskIsCurrent(detector, row)
    ensures var (kind, reason) := ScriptKindFor(detector, row);
            var deletable := detector.UnattachedEbsVolume? || detector.UnassociatedElasticIp?;
            var blocked := exists d :: d in row.dependencies && d.blocksRemediation;
            && (kind.GuardedRemediation? <==>
                  && row.status.Open? && deletable && row.persistence.Persistent?
                  && row.ownership.Unknown? && !blocked)
            && (reason == None <==> kind.GuardedRemediation?)
            && (reason == Some(FindingNotOpen) <==> !row.status.Open?)
            && (reason == Some(DetectorHasNoDestructiveScript) <==>
                  row.status.Open? && !deletable)
            && (reason == Some(CloudFormationOwned) <==>
                  row.status.Open? && deletable && row.ownership.Confirmed?)
            && (reason == Some(BlockingDependency) <==>
                  row.status.Open? && deletable && !row.ownership.Confirmed? && blocked)
            && (reason == Some(StillNewlyObserved) <==>
                  && row.status.Open? && deletable && !row.ownership.Confirmed? && !blocked
                  && row.persistence.NewlyObserved?)
            && (reason == Some(RiskIsReview) <==>
                  && row.status.Open? && deletable && row.ownership.Likely? && !blocked
                  && row.persistence.Persistent?)
            && reason != Some(RiskIsHigh)
  {
    RiskExactly(detector, row.persistence, row.ownership, row.dependencies);
    hide Risk;
  }

  /** A duration counts as so many whole days exactly when it is at least that long; so persistence asks
      for a streak of the threshold's length and for the minimum of observations. */
  lemma PersistentExactly(detector: DetectorType, streakStartedAt: Time, lastObservedAt: Time,
                          consecutive: int, settings: Settings)
    ensures var days := settings.Threshold(detector);
            && (detector.UnattachedEbsVolume? ==> days == settings.ebsDays)
            && (detector.UnassociatedElasticIp? ==> days == settings.eipDays)
            && (detector.StoppedEc2Instance? ==> days == settings.ec2Days)
            && (detector.SnapshotMissingSourceVolume? ==> days == settings.snapshotDays)
            && (Persistence(detector, streakStartedAt, lastObservedAt, consecutive, settings)
                .Persistent?
                <==> && lastObservedAt - streakStartedAt >= days * 86_400_000_000
                     && consecutive >= settings.minConsecutive)
  {
  }

  // The number of further days the cleanup plan announces for a finding that is not persistent.
  function DaysUntilPersistent(detector: DetectorType, row: Row, settings: Settings): int {
    var left := settings.Threshold(detector) - WholeDays(row.lastObservedAt - row.streakStartedAt);
    if left > 0 then left else 0
  }
}
