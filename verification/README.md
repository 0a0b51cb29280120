# CloudZombie: a verified model of its scan engine and the cores around it

CloudZombie scans AWS accounts for unused resources and keeps a store of findings that lives across
scans. This project models, in Dafny, the state that has to stay right over every run, and proves what
the repository's documentation and tests promise about it. `dafny verify dfyconfig.toml` checks all of it.

The model has five parts.

- **Findings over many scans.** `domain.dfy` and `classification.dfy` hold the values, the risk rules and
  script eligibility. `history.dfy` states what a detection cell does to a store as functions on values;
  `session.dfy` is the code's own form, finding objects with mutable columns in a session, proved against
  those functions. `engine.dfy` has region detection and a whole scan. `scans.dfy` and `runs.dfy` put cells
  into scans and scans, aborted scans and user patches into runs. On runs stand the theorems: `replay.dfy`
  (each row summarises its history), `sightings.dfy` (what a cell leaves in each row, column by column, and
  what a row shows later), `cells.dfy` (one complete cell; who may touch a row),
  `confluence.dfy` and `regions.dfy` (order of cells and regions; when a scan gets through),
  `exposure.dfy` (money recomputed from observation rows), `insight.dfy` (eligibility, overview,
  persistence). `database.dfy` runs a scan, of a stored row or of its own, in a session and commits it as a
  whole or not at all.
- **Pricing.** `decimals.dfy` has finite decimals, which prices are, and their text; `sorting.dfy` is stable
  sorting; `calculator.dfy` the tariffs with progressive tiers and the fallback table; `price_api.dfy` reads
  price documents and loads what a request needs; `price_cache.dfy` is the stored form and the time-limited
  cache.
- **Concurrency.** `memoizer.dfy` (per-key locks) and `runner.dfy` (one scan at a time) are transition
  systems over thread steps; their theorems are about every interleaving. The runner's state holds the
  database, so that the theorems on runs hold of every interleaving of starts, scans, patches and
  failures (`Database.EveryInterleavingKeepsTheFindings`), and running a stored scan is one of its steps
  (`Database.ScanIsRunnerStep`).
- **Retry and paging.** `pagination.dfy` runs the retry loops against any page chain and any schedule of
  faults; `listing.dfy` sorts and pages findings.
- **Scripts.** `lines.dfy` splits text into lines, prints and reads assignments and calls;
  `identifiers.dfy` has the identifier languages; `script.dfy` the two generators.

How things are represented. Time is an integer number of microseconds, a day is 86,400,000,000 of them,
and whole days are floored. Money is exact: amounts are `real`, and prices are finite decimals, numbers
of the form n / 10^k. A store is a map from identity (account, region, resource type, resource id,
detector) to a row, with a log of observation rows; a scan either commits all of its changes or none. The clock does not go back; that scan ids do not repeat and start times of
committed scans do not decrease is then proved of the runner. A repeated
(finding, scan) observation key is the integrity error of the unique constraint at
`backend/app/persistence/models.py` line 137: the scan raises and leaves nothing, so resource ids need not be
assumed distinct. The provider is an arbitrary function from region and detector to an outcome, or from a
request number to a fault; detectors stamp their candidates with the account, region and detector they ran
for. The fixed shell text of the scripts is a parameter: any templates that are whole lines of printable
ASCII without a `readonly` line or a call line, as the constants in
`backend/app/remediation/scripts/templates.py` are.

Where the code and its documents differ, the model follows the code:

- `docs/observation-model.md` line 16 defines the persistence state for every finding; the code leaves the
  state of a resolved finding as it was (`backend/app/scanner/history.py` lines 193-196).
  `Insight.ResolvedStaysMarkedPersistent` shows it on three weekly scans, and
  `Insight.PersistenceIsCurrentExactly` says exactly when the documented meaning holds.
- `docs/architecture.md` line 363 calls a scan failed when no region ran; in the code a scan whose regions
  all turn out unavailable is completed (`Engine.AllUnavailableIsCompleted`, exactly when in
  `Engine.VerdictExactly`).
- A terminal scan status is not final: it can be overwritten by failed after the findings were stored
  (`Runner.CompletedScanCanBecomeFailed`). A running row can stay running forever
  (`Runner.SpawnFailureSticks`, exactly when in `Runner.StuckExactly`); left by an earlier process, it
  blocks every later scan (`Runner.LeftoverBlocksEveryScan`).
- `docs/architecture.md` line 243 gives the backoff a cap of 8 s and names two throttling codes; the three
  pauses are 0.5, 1 and 2 s, so the cap is never reached, and the code retries four codes.
- The account and region patterns accept decimal digits outside ASCII
  (`backend/app/remediation/validators.py` lines 36-37); such identifiers pass validation and are stopped
  by the generator's last check (`Script.StopForeignDigits`, exactly when in `Script.GenerateScript`).
- The price list can state tiers that begin below zero (`backend/app/pricing/aws_api.py` lines 33-39); they
  are charged for IOPS nobody has (`Calculator.NegativeBeginOvercharges`), and
  `Calculator.PositiveTablesChargePerIopsExactly` and `Calculator.QuantitiesAddUpExactly` say exactly when
  a table is not of that kind.
- Configured regions are not made distinct (`backend/app/scanner/engine.py` lines 220-221): a region
  configured twice makes every scan raise once it has a candidate there (`RegionOrder.ScanCommitsExactly`).

## Model

| member | source | states |
|---|---|---|
| Classification.GuardedExactly | backend/app/remediation/eligibility.py:43-67 | with a current risk column the whole chain of reasons comes down to: open, a detector with a guarded script, risk low; a reason is given exactly otherwise |
| Classification.RiskExactly | backend/app/scanner/classification.py:21-44 | risk is high exactly with a confirmed owner or a blocking dependency, low exactly for a persistent volume or address with no owner known and no such dependency, review otherwise |
| Classification.OfferExactly | backend/app/remediation/eligibility.py:43-67 | with a current risk column: exactly when the guarded script is offered and, for each reason against it, exactly when that one is given, in the finding's own columns; the reason of a high risk is never reached |
| Classification.PersistentExactly | backend/app/scanner/history.py:29-37 | persistent exactly from a streak of the detector's own threshold in days and the minimum of observations on |
| History.ReopeningUndoesDismissalExactly | backend/app/services/finding_service.py:130-146 | dismissing and reopening restores the row but for its update time exactly when it carried no traces of an earlier dismissal |
| History.DismissalSurvivesResolution | backend/app/scanner/history.py:141-147 | a dismissed finding that disappears and comes back is open or ignored but keeps the dismissal's date and reason |
| History.PickIsUnique | backend/app/scanner/history.py:98-106 | without repeated identities the candidate that decides a finding is the one in the list |
| Sessions.Finding.Continue | backend/app/scanner/history.py:140-160 | the in-place column updates for a known finding give exactly the row of the pure rule, in all columns |
| Sessions.Finding.Insert | backend/app/scanner/history.py:107-138 | a first observation gives exactly the row of the pure rule |
| Sessions.Finding.Count | backend/app/scanner/history.py:140-156 | reappearing restarts streak and count and clears the resolution; otherwise the count goes on; a dismissed finding stays dismissed |
| Sessions.Finding.ResolveAt | backend/app/scanner/history.py:186-197 | a live finding gets the resolved status, the date, no streak count and a new update time, and keeps everything else; a resolved one is left alone |
| Sessions.Finding.PatchStatus | backend/app/services/finding_service.py:130-146 | accepted exactly from open to dismissed and from dismissed to open; then status, update time and the two dismissal columns are the new ones and nothing else changes; a refused patch changes nothing |
| Sessions.Session.Observe | backend/app/scanner/history.py:98-165 | one candidate changes the one row of its identity and counts as new, persistent or ignored as it should |
| Sessions.Session.PatchFinding | backend/app/services/finding_service.py:106-146 | a patch of an unknown finding or a forbidden transition changes no row; an accepted one changes only its own |
| Sessions.PlayMeans | backend/app/scanner/history.py:98-184 | the candidate loop succeeds exactly when no observation key repeats, and then rows, log, counters and order are those of the declarative rule |
| Sessions.ObserveThenResolve | backend/app/scanner/history.py:91-197 | observing and then resolving the missing ones gives the cell's rows, and the resolved ones are exactly the live findings of the cell that no candidate names |
| Sessions.Session.Reconcile | backend/app/scanner/history.py:78-202 | a whole cell on the session: rows, observation rows, all four counters and the observed findings are those of the specification; it raises exactly when an observation key would repeat; incomplete cells change nothing |
| Sightings.SightingShowsCandidate | backend/app/scanner/history.py:57-165 | after a complete cell each candidate's row shows that candidate's facts, dependencies, ownership, ignore reason, confidence and cost; it is dismissed exactly when it was, and otherwise ignored or open exactly as the candidate says, never resolved |
| Sightings.SightingCounts | backend/app/scanner/history.py:107-157 | its dates, counts and scans: a first sighting starts them, a live finding's streak goes on, a resolved one's starts anew, and first dates and dismissal traces are kept |
| Sightings.SightingClassifies | backend/app/scanner/history.py:158-165 | its persistence and risk, from its own streak and the candidate's ownership and dependencies |
| Sightings.UnsightedExactly | backend/app/scanner/history.py:186-197 | every other row: a live one of the cell's account, region and detector is resolved and keeps all but four columns, any other is unchanged, and no row appears or goes |
| Sightings.ChangesExactly | backend/app/scanner/history.py:139-197 | the new and the resolved counter are the numbers of candidates without a row and of live rows of the cell that no candidate names |
| Sightings.StatesExactly | backend/app/scanner/history.py:181-184 | the persistent and the ignored counter are the numbers of candidates whose row is then persistent and of candidates that are ignored and whose finding was not dismissed |
| Sightings.RowShowsLastSighting | backend/app/scanner/history.py:98-165 | at any later time of any run a row shows what the candidate of its last sighting said; it is ignored only if that candidate was, and open against its word only if the user reopened it since |
| Sightings.RowsHaveLastSighting | backend/app/scanner/history.py:98-139 | every row of a run has a last sighting |
| Scans.PlayCellsMeans | backend/app/scanner/engine.py:256-305 | all cells of a scan get through exactly when no observation key repeats over the scan, and then leave the specified rows, log, counters and findings |
| Engine.DetectRegion | backend/app/scanner/engine.py:75-159 | cells and status of a region for any outcomes: complete exactly when every detector found, skipped with the cells so far when the region turns out unavailable |
| Engine.RegionStatusExactly | backend/app/scanner/engine.py:121-158 | skipped exactly when some detector finds the region unavailable, complete exactly when all succeed, failed exactly when all break, partial exactly when none finds it unavailable, not all succeed, and some succeeds or is refused |
| Engine.RegionCellsExactly | backend/app/scanner/engine.py:84-148 | each cell is one detector's, in order, complete with its candidates exactly when it succeeded and empty otherwise; the cells stop at the first detector that finds the region unavailable |
| Engine.FiledExactly | backend/app/scanner/engine.py:273-280 | the four region lists of a scan row hold exactly the regions where all detectors answered, some answered or was refused, all broke, and which are closed, each in the order of the scan |
| Engine.OnlyAnswersResolve | backend/app/scanner/engine.py:281-300 | a scan resolves a finding only of its own account, in a covered region that is opted in, whose detector succeeded there without naming it: no refusal, failure or unavailable region resolves anything |
| Engine.OptedOutExactly | backend/app/scanner/engine.py:208-232 | a region is opted out exactly when the last entry listed under its name says so |
| Engine.RegionsExactly | backend/app/scanner/engine.py:218-226 | the regions are those requested, each once, or else the stored, or else the configured ones, or else all known ones, each once |
| Engine.Deduplicate | backend/app/scanner/engine.py:218-219 | explicitly requested regions are made distinct and none is lost |
| Engine.DeduplicateKeepsOrder | backend/app/scanner/engine.py:218-219 | the distinct regions stand in the order in which each was first named |
| Engine.VerdictExactly | backend/app/scanner/engine.py:228-334 | failed exactly when no region is opted in; completed exactly when some is and each is not opted in, unavailable, or fully detected |
| Engine.AllUnavailableIsCompleted | backend/app/scanner/engine.py:228-334 | one opted-in region whose every detector finds it unavailable: the scan is completed with no region run |
| Engine.SumExposure | backend/app/scanner/engine.py:307-320 | headline and low-confidence sums of the observed findings as they are at the end |
| Scans.ExposureExactly | backend/app/scanner/engine.py:307-320 | the headline adds up the open findings with a cost of high or medium confidence, the other figure those of low confidence |
| Engine.ReconcileAll | backend/app/scanner/engine.py:256-305 | the region and cell loops leave rows, log, counters and observed findings of the specification, or raise exactly when it says so |
| Engine.RunScan | backend/app/scanner/engine.py:161-337 | a scan on a session and a scan row, stored or its own: which failures end it with status failed, their own error and everything else untouched, when an exception escapes, and otherwise rows, log, counters, exposure, region lists and status; what is then stored is stated by Database.Store.RunStored and Database.Store.RunOwn |
| Engine.DoneIsStep | backend/app/scanner/engine.py:329-337 | a scan that gets through is exactly one step of a run, stored totals included |
| Engine.ScanCellsAreSound | backend/app/scanner/engine.py:218-247 | whatever the provider answers, a scan's cells meet the assumptions of the theorems on runs, even with a region listed twice |
| RegionOrder.ScanCommitsExactly | backend/app/scanner/engine.py:218-305 | a scan with a fresh id gets through exactly when every completed detector names each resource once and no region listed twice has a candidate |
| Runs.RowIsFoldOfEvents | backend/app/scanner/history.py:78-202 | over any run, a row is the fold of the events of its own finding: nothing another finding does can influence it |
| Replay.ReplayRefinement | backend/app/scanner/history.py:78-202 | after any run a finding exists exactly when a complete cell reported it; first, last and streak dates, observation count, consecutive count, resolution and resolution date are those of its history; the count is the number of its observation rows; the dates are in order |
| Replay.LogCountsPositives | backend/app/scanner/history.py:166-178 | the observation rows of a finding are as many as the complete cells that reported it |
| Cells.StoreMatchesReality | backend/app/scanner/history.py:91-202 | after a complete cell the live findings of the cell are exactly its candidates |
| Cells.LiveBalance | backend/app/scanner/history.py:98-202 | live after = live before + new + reappeared - resolved |
| Cells.OneObservationEach | backend/app/scanner/history.py:166-178 | every candidate gets exactly one observation row, and its status, persistence, risk, cost, confidence and evidence are those of the row the cell leaves |
| Cells.RepeatingChangesNoCount | backend/app/scanner/history.py:98-202 | in any run, a complete cell that reports what an earlier one reported counts no new and no resolved finding, whatever other cells, scans and patches lie between, unless a complete cell of the same account, region and detector does |
| Cells.RepeatedScanCountsNothing | backend/app/scanner/engine.py:291-305 | a scan each of whose complete cells repeats an earlier one stores no new and no resolved finding |
| Cells.ResolutionSafety | backend/app/scanner/history.py:88-89 | a step changes a row only through a complete cell of its account, region and detector or a patch of it, and resolves it only if such a cell omits it |
| Cells.UntouchedStretch | backend/app/scanner/engine.py:281-300 | any stretch of a run without a complete cell or patch for a finding leaves its row identical |
| Confluence.CellOrderDoesNotMatter | backend/app/scanner/engine.py:256-320 | cells of distinct region and detector, in any order: same rows, same counters, same exposure, and they commit or raise alike |
| RegionOrder.ScanCellsAreDistinct | backend/app/scanner/engine.py:75-159 | a scan over distinct regions has cells of distinct region and detector |
| RegionOrder.RegionOrderDoesNotMatter | backend/app/scanner/engine.py:228-320 | a scan over the same distinct regions in any order commits or raises alike and leaves the same rows, the same totals and, up to order, the same observation rows |
| ExposureHistory.LogIsLastWord | backend/app/scanner/history.py:166-178 | at the end of a scan each of its observation rows still shows what its finding was left with |
| ExposureHistory.ScanHistoryIsFinal | backend/app/services/history_service.py:20-27 | later scans and patches never change a scan's observation rows or totals |
| ExposureHistory.Point | backend/app/services/history_service.py:28-57 | the counts and sums of one scan from its observation rows: a type's sum is over its open rows with a cost of high or medium confidence, a type is listed exactly when it has a row, or such a row; the types add up to the whole |
| ExposureHistory.LogExposureExactly | backend/app/services/history_service.py:30-38 | per type and over all types the exposure of observation rows is the sum over the open ones of the right confidence |
| ExposureHistory.ExposureIsConserved | backend/app/scanner/engine.py:307-326 | the stored headline equals the sum over resource types that the history recomputes, at any later time; the low-confidence sum likewise; the per-type rows add up to the candidates of the complete cells |
| Insight.EligibilityOnReachableStores | backend/app/scanner/classification.py:21-44 | in every reachable store the stored risk is high exactly with a confirmed owner or a blocking dependency and low exactly for persistent volumes and addresses with neither and no likely owner; a guarded script is offered exactly for the open ones among the latter |
| Insight.Build | backend/app/services/overview_service.py:15-66 | the counts are the numbers of findings of the whole store, each once, in whatever order they are read; open cost per resource type |
| Insight.StatusesCounted | backend/app/services/overview_service.py:38-55 | the open, ignored and dismissed figures are the numbers of findings with that status |
| Insight.PersistentLowCounted | backend/app/services/overview_service.py:39-43 | its figure is the number of open, persistent findings of low risk |
| Insight.OpenOnesCounted | backend/app/services/overview_service.py:44-53 | the review, high and newly observed figures are the numbers of open findings of that risk or state |
| Insight.OverviewPartitions | backend/app/services/overview_service.py:38-49 | on every reachable store open = persistent low + review + high |
| Insight.PromiseKept | backend/app/remediation/plan.py:165-170 | re-observing a live finding makes it persistent exactly from threshold and minimum on: at the latest after the announced days, not a day sooner, never before the threshold from the streak's start |
| Insight.PersistenceIsCurrentExactly | backend/app/scanner/history.py:29-37 | with fixed settings the stored persistence of a reachable row is the one its columns call for exactly when the row is not resolved, not marked persistent, or no consecutive minimum is asked for |
| Insight.ResolvedStaysMarkedPersistent | backend/app/scanner/history.py:186-197 | a run of three scans after which a resolved volume is still marked persistent |
| Insight.PersistentUntilStreakEnds | backend/app/scanner/history.py:140-159 | with fixed settings a persistent finding stays persistent, its streak start unchanged, until the streak ends |
| Memoizer.EveryInterleavingIsSafe | backend/app/providers/memoizing.py:31-48 | in every interleaving: after a value or a provider error every later call on the key ends in it without loading, a call loads only after nothing but other errors, a hit repeats a load, and only the last load of a key can end in anything but another error; one shared lock per key with one thread inside; the effects form a sequential history of a cache |
| Memoizer.SequentialExactly | backend/app/providers/memoizing.py:35-48 | the sequential histories of the cache are exactly those in which every call fits in with the values and provider errors before it |
| Memoizer.LaterCallsAgree | backend/app/providers/memoizing.py:37-41 | once a key has an outcome, every call on it still to come back returns or raises that outcome without loading |
| Memoizer.OneEffectPerCall | backend/app/providers/memoizing.py:35-48 | every call takes effect exactly once, between its begin and its return |
| Memoizer.CallsReturnTheirEffect | backend/app/providers/memoizing.py:35-48 | what a call returns or raises is the outcome of its own effect |
| Memoizer.NoDeadlock | backend/app/providers/memoizing.py:31-48 | in every reachable state with a call under way some thread can go on, and doing so brings its call closer to the end |
| Runner.OneScanAtATime | backend/app/services/scan_runner.py:31-108 | in every interleaving of starts, workers, patches and failures: at most one running row, one left by an earlier process included, and at most one thread executing, the running one |
| Runner.DatabaseIsAWellFormedRun | backend/app/services/scan_runner.py:31-108 | in every interleaving the findings are what a well-formed run of whole commits makes them: each scan taken in at most once, none while its row runs, none whose engine run raised; scan ids are fresh and start times in order |
| Runner.FindingsChangeOnlyInTheCommit | backend/app/services/scan_runner.py:81-87 | findings, observation rows and totals change only in the commit that makes the running scan terminal, to exactly what its cells call for, and in a patch of one finding |
| Runner.TerminalChangesOnlyByHandler | backend/app/services/scan_runner.py:90-104 | a terminal status changes in no step but the failure handler of the same scan, which makes it failed |
| Runner.CompletedScanCanBecomeFailed | backend/app/services/scan_runner.py:88-104 | an interleaving in which a completed scan, whatever findings it stored, ends as failed |
| Runner.StuckForever | backend/app/services/scan_runner.py:35-40 | the row of a stuck scan stays running whatever happens, and no later start succeeds |
| Runner.StuckExactly | backend/app/services/scan_runner.py:60-108 | a running row can never leave running exactly when no thread holds its scan before the end of the failure handler |
| Runner.BecomesStuckExactly | backend/app/services/scan_runner.py:58-108 | a step makes a scan stuck exactly when its start fails after the commit, its worker cannot be spawned, its failure handler fails, or an interrupt that the handler does not catch passes it by |
| Runner.SpawnFailureSticks | backend/app/services/scan_runner.py:60-65 | a reachable stuck scan: its worker could not be spawned |
| Runner.LeftoverBlocksEveryScan | backend/app/services/scan_runner.py:35-40 | a row left running by an earlier process stays so and blocks every scan of this one |
| Database.Store.RunStored | backend/app/scanner/engine.py:161-337 | a stored scan either stores everything it did, findings and verdict together, or only the failed status, or nothing at all when an exception escapes, and exactly when which |
| Database.Store.RunOwn | backend/app/scanner/engine.py:168-190 | a scan that makes its own row under a fresh id ends in the same ways; after an exception there is no row, and with no regions asked for it takes the configured or the known ones |
| Database.AllOrNothing | backend/app/scanner/engine.py:168-337 | a scan that reaches its regions leaves exactly what applying its step leaves, all or nothing; every other scan leaves the findings alone |
| Database.ScanIsRunnerStep | backend/app/services/scan_runner.py:81-90 | running a stored scan is an enabled step of the runner on the runner's database: a full commit, a bare failure, or a raise without effect |
| Database.EveryInterleavingKeepsTheFindings | backend/app/services/scan_runner.py:31-108 | in every interleaving every finding summarises its own history, its risk is current and decides its eligibility, and every stored exposure is that of its observation rows |
| Pagination.Client.Invoke | backend/app/providers/aws/readonly.py:10-28 | one call under any fault schedule: its result, the requests sent and the pauses slept |
| Pagination.Client.Paginate | backend/app/providers/aws/readonly.py:31-53 | the result is the whole chain in order or an error, never a part: every retry starts anew |
| Pagination.Client.PaginateManually | backend/app/providers/aws/readonly.py:56-75 | the result is the whole chain in order or an error, each page exactly once; the loop ends on every finite chain |
| Pagination.ChainIsUnique | backend/app/providers/aws/readonly.py:65-75 | following the tokens yields one chain, so the result does not depend on the faults |
| Pagination.ChainExactly | backend/app/providers/aws/readonly.py:67-75 | a chain ends exactly with the first page whose token is missing or empty, and each other page is followed by the answer to its token |
| Pagination.Attempted | backend/app/providers/aws/readonly.py:41-46 | an attempt succeeds exactly when none of its requests meets a fault, and otherwise stops at the first |
| Pagination.Retried | backend/app/providers/aws/readonly.py:18-28 | at most three retries, throttled at the end only after all of them, at most four times the requests |
| Pagination.RetriedMeans | backend/app/providers/aws/readonly.py:40-53 | at most four attempts, each after the first right behind the throttle that stopped the one before; the outcome is the last attempt's |
| Pagination.BackoffAddsUp | backend/app/providers/aws/readonly.py:24-25 | k retries sleep (2^k - 1) / 2 seconds |
| Pagination.ThreeThrottlesAreSurvived | backend/app/providers/aws/readonly.py:40-53 | at most three throttles and no other fault never make a listing or call fail |
| Pagination.PageByPage | backend/app/providers/aws/readonly.py:67-75 | between one and four requests for each page of a listing that succeeds |
| Pagination.PageByPageSleeps | backend/app/providers/aws/readonly.py:67-75 | a manual listing sleeps at most 3.5 seconds per page |
| Pagination.PageByPageSurvives | backend/app/providers/aws/readonly.py:67-75 | a manual listing survives any number of throttles of which no four come in a row |
| Pagination.WholeListingCanFail | backend/app/providers/aws/readonly.py:40-53 | a schedule that the manual listing survives and the paginator's does not |
| Sorting.StrictIsUnique | backend/app/pricing/calculator.py:102 | a strictly increasing arrangement is what sorting yields, whatever the input order |
| Calculator.CalculateVolume | backend/app/pricing/calculator.py:54-126 | the estimate or error of one volume, line by line, for every volume type |
| Calculator.Calculate | backend/app/pricing/calculator.py:129-179 | the estimate or error of any request |
| Calculator.ChargeIsPerIops | backend/app/pricing/calculator.py:99-113 | for any tier table the charge is the sum over the IOPS of what the tiers containing each charge, on top of what the table charges for none |
| Calculator.ChargesPerIopsExactly | backend/app/pricing/calculator.py:99-113 | that sum alone is charged exactly when the table charges nothing for no IOPS, as when no tier reaches below zero |
| Calculator.PositiveTablesChargePerIopsExactly | backend/app/pricing/calculator.py:99-113 | with positive prices each IOPS is priced by its tiers exactly when no tier reaches below zero |
| Calculator.NegativeBeginOvercharges | backend/app/pricing/calculator.py:103-104 | a tier that begins below zero is charged for IOPS nobody has |
| Calculator.QuantitiesAddUpExactly | backend/app/pricing/calculator.py:102-104 | for any tier table the quantities add up to the provisioned IOPS exactly when every IOPS is in exactly one tier and no tier reaches below zero |
| Calculator.ProgressiveTiers | backend/app/pricing/calculator.py:99-113 | for a contiguous table in any order: quantities add up, the charge is that of pricing each IOPS by its own tier, and lies between IOPS at least and at greatest price |
| Calculator.AmountIsSumOfLines | backend/app/pricing/calculator.py:125-179 | the amount of every estimate is the sum of its line items |
| Calculator.VolumeAmount | backend/app/pricing/calculator.py:54-126 | a volume's amount in closed form, by type |
| Calculator.Gp3Exactly | backend/app/pricing/calculator.py:60-89 | gp3: storage, the IOPS above 3000 and the throughput above 125 are charged; it cannot be priced exactly when one of these is charged without a price |
| Calculator.ProvisionedExactly | backend/app/pricing/calculator.py:90-122 | io1, and io2 without tiers: storage and every provisioned IOPS; it cannot be priced exactly without a price per IOPS |
| Calculator.TieredExactly | backend/app/pricing/calculator.py:99-113 | io2 with tiers: storage and, without parts below zero, for each IOPS what the tiers containing it charge |
| Calculator.PlainExactly | backend/app/pricing/calculator.py:54-126 | any other known type costs its storage alone, and the magnetic one says so |
| Calculator.SinglesExactly | backend/app/pricing/calculator.py:134-158 | an address costs 730 hours, a snapshot its size at the price of its tier, each missed exactly without that price |
| Calculator.LinesCostTheirQuantity | backend/app/pricing/calculator.py:38-45 | every line of every estimate costs its quantity at its unit price |
| Calculator.VolumeIsMonotone | backend/app/pricing/calculator.py:54-126 | with no negative price the amount never falls when size, IOPS or throughput rise |
| Calculator.SnapshotIsMonotone | backend/app/pricing/calculator.py:142-158 | a larger snapshot never costs less, and is priced exactly when a smaller one is |
| Calculator.StoppedIsAdditive | backend/app/pricing/calculator.py:159-178 | amounts add over volume lists and address counts |
| Calculator.StoppedIsSumOfEstimates | backend/app/pricing/calculator.py:159-178 | a stopped instance costs its volumes' estimates plus, with addresses, one Elastic IP estimate for each |
| Calculator.StoppedIsMonotone | backend/app/pricing/calculator.py:159-178 | larger volumes or more addresses never cost less |
| Calculator.FallbackTiersAreProgressive | backend/app/pricing/fallback.py:33-39 | the fallback tiers are contiguous from zero for any three prices |
| Calculator.FallbackTiersExactly | backend/app/pricing/fallback.py:33-39 | the first listed price is that of each IOPS up to 32,000, the second up to 64,000, the third beyond |
| Calculator.FallbackIsListed | backend/app/pricing/fallback.py:40-54 | every fallback price is the listed one of its own kind, down to what an address and a snapshot then cost |
| Calculator.FallbackNeverMisses | backend/app/pricing/fallback.py:23-70 | the fallback table prices a request exactly when its volume types are listed |
| PriceApi.FindSinglePrice | backend/app/pricing/aws_api.py:146-167 | the price of the first dimension of the unit in a document with the usage suffix, or an error |
| PriceApi.First | backend/app/pricing/aws_api.py:154-161 | the first qualifying dimension is found, and none exactly when none qualifies |
| PriceApi.LoadVolumePrices | backend/app/pricing/aws_api.py:169-219 | the unit prices of a volume type, io2 tiers in order, or an error |
| PriceApi.StorageExactly | backend/app/pricing/aws_api.py:170-175 | the storage price is that of the first dimension per GB-month among the storage documents |
| PriceApi.ExtrasExactly | backend/app/pricing/aws_api.py:176-219 | only gp3 and io1 have a price per IOPS, the first IOPS dimension's, only gp3 one for throughput, the first throughput dimension's, only io2 tiers |
| PriceApi.TiersExactly | backend/app/pricing/aws_api.py:195-210 | the io2 tiers are in the order of their beginnings and are, one for one, what the IOPS dimensions describe |
| PriceApi.TiersOfEach | backend/app/pricing/aws_api.py:198-210 | the io2 tiers load exactly when every dimension has readable bounds and price, and each is read from its own dimension |
| PriceApi.Load | backend/app/pricing/aws_api.py:221-256 | what is loaded depends on a request only through its cache identity |
| PriceApi.LoadsExactly | backend/app/pricing/aws_api.py:221-256 | what is loaded and nothing else: the volume types named, an address price exactly when an address is asked for, for a snapshot the price of its own tier |
| PriceApi.LoadSuffices | backend/app/pricing/aws_api.py:221-252 | what was loaded for one request prices every request with the same cache identity: the calculator misses no price |
| Decimals.FaithfulCodecExists | backend/app/pricing/aws_api.py:50-105 | decimals can be written as text, never empty, and read back without loss |
| PriceCache.PayloadRoundTrip | backend/app/pricing/aws_api.py:50-129 | for any decimal prices and any text of decimals that reads back, reading a stored payload gives back the prices and the time |
| PriceCache.Cache.Get | backend/app/pricing/cache.py:24-31 | an entry is offered exactly while it is no older than the time to live |
| PriceCache.Backend.EstimateRequest | backend/app/pricing/aws_api.py:258-296 | cache and answer after an estimate: hit, load and store, or error |
| PriceCache.EntriesWereLoaded | backend/app/pricing/aws_api.py:274-278 | every cache entry is what some earlier call with the same identity loaded |
| PriceCache.CachedAgreesWithUncached | backend/app/pricing/aws_api.py:258-296 | over any sequence of requests and clock readings an answer is the one an uncached estimate would have given when its prices were loaded, by this call or one within the time to live; there is none exactly when nothing is offered and a load fails now |
| Listing.ListIsInOrder | backend/app/services/finding_service.py:84-101 | the list is a permutation of the selected findings, in order either way, those without a value last |
| Listing.TiesKeepTheirOrder | backend/app/services/finding_service.py:90-101 | findings with equal values, or with none, keep the order in which they were read, descending too |
| Listing.PagesMakeTheList | backend/app/services/finding_service.py:102-104 | the pages joined are the list, all but the last are full, later ones are empty |
| Lines.SplitWhole | backend/app/remediation/scripts/generator.py:166-167 | whole lines split apart from whatever follows, with all of Python's line breaks |
| Lines.AssertSafe | backend/app/remediation/scripts/generator.py:165-170 | the last check accepts exactly text whose readonly lines are well formed and whose characters are printable ASCII or line feeds |
| Lines.ReadonlyIsInverse | backend/app/remediation/scripts/generator.py:173-174 | a line reads as an assignment exactly when it is the printed form of a name and a safe value |
| Lines.CallReadsBack | backend/app/remediation/scripts/generator.py:294-301 | a printed call reads back as its kind, region and id |
| Lines.PrintedForms | backend/app/remediation/scripts/generator.py:173-174 | the shell text of a printed assignment and of the two printed calls |
| Identifiers.AcceptedIsSafeExactly | backend/app/remediation/validators.py:35-44 | an accepted identifier is safe text exactly when it is ASCII, only accounts and regions can fail to be, and none holds a character special inside double quotes |
| Script.Header | backend/app/remediation/scripts/generator.py:93-132 | the header's lines, resource or target list included |
| Script.HeadLinesExactly | backend/app/remediation/scripts/generator.py:105-113 | the text of the seven header lines |
| Script.HeaderIsSilent | backend/app/remediation/scripts/generator.py:93-132 | a header of printable parts holds comments only |
| Script.GenerateScript | backend/app/remediation/scripts/generator.py:177-253 | exactly which inputs are refused, exactly when the last check fires, and that every script handed out is safe, begins with its header, reads back as the names and values that went in, with no call, and ends with the common text and the read-only preamble and body of the detector for an investigation, the detector's guarded body otherwise |
| Script.ExpectedExactly | backend/app/remediation/scripts/generator.py:208-214 | what a script assigns: account, region, and the resource under its detector's own name; a guarded one also the tags |
| Script.TagPairsExactly | backend/app/remediation/scripts/generator.py:211-214 | the three tag assignments |
| Script.ResourceIdNamesItsKind | backend/app/remediation/scripts/generator.py:152-162 | a valid target's resource id begins as the ids of its detector's resources do |
| Script.StopForeignDigits | backend/app/remediation/scripts/generator.py:165-170 | with an account id of twelve digits outside ASCII, input that is fine otherwise passes validation and is stopped by the last check |
| Script.ForeignDigitsAreAcceptable | backend/app/remediation/validators.py:36-37 | a concrete such input passes every validation |
| Script.GenerateBulkScript | backend/app/remediation/scripts/generator.py:256-337 | the same for many targets: one call per target with kind, region and id in order, between the bulk functions with the opening and the close, at the end of the script |
| Script.BulkExactly | backend/app/remediation/scripts/generator.py:286-301 | a bulk script assigns the account and the first target's region, and makes the volume call exactly for the volumes, each with its own region and id |

## Left out

- The boto3 clients, the operation guard and the translation of error codes: the provider is an oracle; the library's paginator is taken to request page after page until no token comes back, without its check for repeated tokens.
- The retries of botocore below each request of the client (`backend/app/providers/aws/provider.py` line 68): a request's fault is the one that is left after them.
- Pages that change between the requests of one listing: the service answers a token with the same page every time.
- SQLAlchemy, migrations, JSON columns and rounding to four decimals: a store is a map with a log, and money is exact.
- Detector filters, dependency helpers, ownership resolution, narrative text and candidate pricing inside a scan: candidates come with ownership and price filled in.
- The coverage map, warnings, error lists and finish time of a scan row, and a settings map that lacks a detector's threshold.
- The thread pool of region detection: outcomes are given for every region and detector, so its timing cannot matter.
- Region discovery beyond names and opt-in state.
- The limit and order of scans in the history service, the latest-scan part of the overview, and its open counts per resource type.
- The finding filters of the listing, taken as one arbitrary condition, and page numbers below one, which the API refuses (`backend/app/api/router.py` lines 174-175).
- Several processes sharing one database, for the scan runner: as in the code, its lock covers one process only.
- Decimal text and JSON of cached payloads beyond the round trip of a decimal, SHA-256 and JSON of the cache key (taken as injective), and the `usage_contains` argument, which no caller passes.
- The grouping of price dimensions by offer terms: a document lists its dimensions in order.
- The confidence, upper-bound mark and explanation that a pricing backend puts on an estimate, and the cache kept in the database.
- The fallback table's substitute region and the pricing service's choice of backend.
- The static script templates, file names, checks and warnings of scripts, the text of timestamps beyond their characters, and running the scripts.
- Bulk selection of eligible findings, cleanup-plan texts, FastAPI routing, CLI, demo data and the frontend.
- A patch while a scan executes is taken to come before or after the scan's commit as a whole; a session that overwrites it is not modelled.
- Pagination.Client.PaginateManually: requires a finite chain of pages; on an endless one the code's loop does not end.
