/** Finding rows as the objects a scan mutates, and the session that reconciles detection cells
    against them. */
module Sessions {
  import opened Domain
  import opened Classification
  import opened History

  class Finding {
    const identity: Identity
    var status: FindingStatus
    var firstObservedAt: Time
    var lastObservedAt: Time
    var streakStartedAt: Time
    var observationCount: int
    var consecutive: int
    var persistence: PersistenceState
    var risk: RemediationRisk
    var confidence: CostConfidence
    var monthly: Option<real>
    var ownership: OwnershipStatus
    var dependencies: seq<Dependency>
    var facts: Facts
    var ignoreReason: Option<string>
    var resolvedAt: Option<Time>
    var dismissedAt: Option<Time>
    var dismissReason: Option<string>
    var firstScan: ScanId
    var lastScan: ScanId
    var createdAt: Time
    var updatedAt: Time

    function Value(): Row
      reads this
    {
      Row(status, firstObservedAt, lastObservedAt, streakStartedAt, observationCount, consecutive,
          persistence, risk, confidence, monthly, ownership, dependencies, facts, ignoreReason,
          resolvedAt, dismissedAt, dismissReason, firstScan, lastScan, createdAt, updatedAt)
    }

    // A row read back from the database.
    constructor Load(id: Identity, row: Row)
      ensures identity == id && Value() == row
    {
      identity := id;
      status := row.status;
      firstObservedAt := row.firstObservedAt;
      lastObservedAt := row.lastObservedAt;
      streakStartedAt := row.streakStartedAt;
      observationCount := row.observationCount;
      consecutive := row.consecutive;
      persistence := row.persistence;
      risk := row.risk;
      confidence := row.confidence;
      monthly := row.monthly;
      ownership := row.ownership;
      dependencies := row.dependencies;
      facts := row.facts;
      ignoreReason := row.ignoreReason;
      resolvedAt := row.resolvedAt;
      dismissedAt := row.dismissedAt;
      dismissReason := row.dismissReason;
      firstScan := row.firstScan;
      lastScan := row.lastScan;
      createdAt := row.createdAt;
      updatedAt := row.updatedAt;
    }

    // A row inserted for a condition never seen before, then completed like any other.
    constructor Insert(c: Candidate, detector: DetectorType, ctx: Context)
      ensures identity == c.identity && Value() == Observed(None, c, detector, ctx)
    {
      identity := c.identity;
      status := if c.ignored then Ignored else Open;
      firstObservedAt, lastObservedAt, streakStartedAt := ctx.at, ctx.at, ctx.at;
      observationCount, consecutive := 1, 1;
      persistence := NewlyObserved;
      risk := Review;
      confidence := UnavailableCost;
      monthly := None;
      ownership := Unknown;
      dependencies := [];
      facts := c.facts;
      ignoreReason := c.ignoreReason;
      resolvedAt, dismissedAt, dismissReason := None, None, None;
      firstScan, lastScan := ctx.scan, ctx.scan;
      createdAt, updatedAt := ctx.at, ctx.at;
      new;
      Complete(c, detector, ctx);
    }

    // An existing row meets its condition again.
    method Continue(c: Candidate, detector: DetectorType, ctx: Context)
      requires c.identity == identity
      modifies this
      ensures Value() == Observed(Some(old(Value())), c, detector, ctx)
    {
      Count(c.ignored, ctx);
      Complete(c, detector, ctx);
    }

    method Count(ignored: bool, ctx: Context)
      modifies this`status, this`consecutive, this`streakStartedAt, this`resolvedAt,
               this`lastObservedAt, this`observationCount, this`lastScan
      ensures status == if old(status).Dismissed? then Dismissed
                        else if ignored then Ignored else Open
      ensures streakStartedAt == if old(status).Resolved? then ctx.at else old(streakStartedAt)
      ensures consecutive == if old(status).Resolved? then 1 else old(consecutive) + 1
      ensures resolvedAt == if old(status).Resolved? then None else old(resolvedAt)
      ensures lastObservedAt == ctx.at && observationCount == old(observationCount) + 1
      ensures lastScan == ctx.scan
    {
      if status.Resolved? {
        status := if ignored then Ignored else Open;
        consecutive := 1;
        streakStartedAt := ctx.at;
        resolvedAt := None;
      } else {
        consecutive := consecutive + 1;
        if !status.Dismissed? {
          status := if ignored then Ignored else Open;
        }
      }
      lastObservedAt := ctx.at;
      observationCount := observationCount + 1;
      lastScan := ctx.scan;
    }

    // The columns that depend on the candidate alone or are derived.
    method Complete(c: Candidate, detector: DetectorType, ctx: Context)
      modifies this`facts, this`dependencies, this`ownership, this`ignoreReason, this`confidence,
               this`monthly, this`updatedAt, this`persistence, this`risk
      ensures facts == c.facts && dependencies == c.dependencies && ownership == c.ownership
      ensures ignoreReason == c.ignoreReason && updatedAt == ctx.at
      ensures confidence == if c.price.Some? then c.price.value.confidence else UnavailableCost
      ensures monthly == if c.price.Some? then c.price.value.monthly else None
      ensures persistence == Persistence(identity.detector, streakStartedAt, lastObservedAt,
                                         consecutive, ctx.settings)
      ensures risk == Risk(detector, persistence, ownership, dependencies)
    {
      Refresh(c, ctx.at);
      Classify(detector, ctx.settings);
    }

    // Takes over what the candidate says about the resource.
    method Refresh(c: Candidate, at: Time)
      modifies this`facts, this`dependencies, this`ownership, this`ignoreReason, this`confidence,
               this`monthly, this`updatedAt
      ensures facts == c.facts && dependencies == c.dependencies && ownership == c.ownership
      ensures ignoreReason == c.ignoreReason && updatedAt == at
      ensures confidence == if c.price.Some? then c.price.value.confidence else UnavailableCost
      ensures monthly == if c.price.Some? then c.price.value.monthly else None
    {
      facts := c.facts;
      dependencies := c.dependencies;
      ownership := c.ownership;
      ignoreReason := c.ignoreReason;
      confidence, monthly := UnavailableCost, None;
      if c.price.Some? {
        confidence, monthly := c.price.value.confidence, c.price.value.monthly;
      }
      updatedAt := at;
    }

    // Recomputes the two derived columns.
    method Classify(detector: DetectorType, settings: Settings)
      modifies this`persistence, this`risk
      ensures persistence == Persistence(identity.detector, streakStartedAt, lastObservedAt,
                                         consecutive, settings)
      ensures risk == Risk(detector, persistence, ownership, dependencies)
    {
      persistence :=
        Persistence(identity.detector, streakStartedAt, lastObservedAt, consecutive, settings);
      risk := Risk(detector, persistence, ownership, dependencies);
    }

    method ResolveAt(at: Time) returns (changed: bool)
      modifies this
      ensures changed == !old(status).Resolved?
      ensures Value() == Resolve(old(Value()), at)
      ensures Value() == if changed
                         then old(Value()).(status := Resolved, resolvedAt := Some(at),
                                            consecutive := 0, updatedAt := at)
                         else old(Value())
    {
      changed := !status.Resolved?;
      if changed {
        status := Resolved;
        resolvedAt := Some(at);
        consecutive := 0;
        updatedAt := at;
      }
    }

    // The user's transitions; false stands for the rejected ones.
    method PatchStatus(target: FindingStatus, reason: Option<string>, now: Time)
      returns (accepted: bool)
      modifies this
      ensures accepted == Patch(old(Value()), target, reason, now).Some?
      ensures Value() == if accepted then Patch(old(Value()), target, reason, now).value
                         else old(Value())
      ensures accepted <==> || (old(status).Open? && target.Dismissed?)
                            || (old(status).Dismissed? && target.Open?)
      ensures accepted ==>
                Value() == old(Value()).(
                  status := target, updatedAt := now,
                  dismissedAt := if target.Dismissed? then Some(now) else None,
                  dismissReason := if target.Dismissed? then reason else None)
    {
      if status.Open? && target.Dismissed? {
        status := Dismissed;
        dismissedAt := Some(now);
        dismissReason := reason;
      } else if status.Dismissed? && target.Open? {
        status := Open;
        dismissedAt := None;
        dismissReason := None;
      } else {
        return false;
      }
      updatedAt := now;
      accepted := true;
    }
  }

  // One candidate observed; None stands for the integrity error the unique (finding, scan) key on
  // observation rows raises.
  function PlayOne(p: Progress, c: Candidate, detector: DetectorType, ctx: Context)
    : Option<Progress>
  {
    if p.Taken(c.identity, ctx.scan) then None
    else
      var row := Observed(Lookup(p.rows, c.identity), c, detector, ctx);
      Some(Progress(p.rows[c.identity := row],
                    p.log + [ObservationOf(c.identity, row, ctx)],
                    p.tally.Plus(CandidateTally(p.rows, c, detector, ctx)),
                    p.ids + [c.identity]))
  }

  function Play(p: Progress, candidates: seq<Candidate>, detector: DetectorType, ctx: Context)
    : Option<Progress>
  {
    if |candidates| == 0 then Some(p)
    else
      var before := Play(p, candidates[..|candidates|-1], detector, ctx);
      if before.None? then None
      else PlayOne(before.value, candidates[|candidates|-1], detector, ctx)
  }

  // The row a cell's candidates leave under an identity.
  function CandidateNext(rows: Rows, candidates: seq<Candidate>, detector: DetectorType,
                         ctx: Context, id: Identity): Option<Row>
  {
    if id in Ids(candidates)
    then Some(Observed(Lookup(rows, id), Pick(candidates, id), detector, ctx))
    else Lookup(rows, id)
  }

  /** Playing the candidates one after the other succeeds exactly when no observation key repeats,
      and then every row, observation and count is the one the rows before the cell determine. */
  lemma {:induction false} PlayMeans(rows: Rows, log: seq<Observation>, candidates: seq<Candidate>,
                                     detector: DetectorType, ctx: Context)
    ensures var p := Play(Progress(rows, log, Tally(0, 0, 0, 0), []), candidates, detector, ctx);
            && (p.Some? <==> Distinct(CandidateIds(candidates))
                             && Unlogged(log, CandidateIds(candidates), ctx.scan))
            && (p.Some? ==>
                  && p.value.log == log + CandidateLog(rows, candidates, detector, ctx)
                  && p.value.tally == CandidatesTally(rows, candidates, detector, ctx)
                  && p.value.ids == CandidateIds(candidates)
                  && forall id :: Lookup(p.value.rows, id)
                                  == CandidateNext(rows, candidates, detector, ctx, id))
  {
    if |candidates| == 0 {
      assert Distinct(CandidateIds(candidates)) && Unlogged(log, CandidateIds(candidates), ctx.scan);
    } else {
      hide Observed, Progress.Taken, Distinct, Unlogged, CandidateNext;
      var n := |candidates| - 1;
      var rest, c := candidates[..n], candidates[n];
      assert candidates == rest + [c];
      assert CandidateIds(candidates) == CandidateIds(rest) + [c.identity];
      PlayMeans(rows, log, rest, detector, ctx);
      CandidateLogKeys(rows, rest, detector, ctx);
      var before := Play(Progress(rows, log, Tally(0, 0, 0, 0), []), rest, detector, ctx);
      if before.Some? {
        KeyFreeExactly(rows, log, rest, c, detector, ctx);
        if !before.value.Taken(c.identity, ctx.scan) {
          PlayStep(rows, rest, c, detector, ctx, before.value);
        }
      } else {
        PrefixFails(log, rest, c, ctx.scan);
      }
    }
  }

  lemma PrefixFails(log: seq<Observation>, rest: seq<Candidate>, c: Candidate, scan: ScanId)
    requires !Distinct(CandidateIds(rest)) || !Unlogged(log, CandidateIds(rest), scan)
    ensures !Distinct(CandidateIds(rest) + [c.identity])
            || !Unlogged(log, CandidateIds(rest) + [c.identity], scan)
  {
    var ids := CandidateIds(rest);
    var more := ids + [c.identity];
    if !Distinct(ids) {
      var i, j :| 0 <= i < j < |ids| && ids[i] == ids[j];
      assert more[i] == more[j];
    } else {
      var o, id :| o in log && id in ids && o.identity == id && o.scan == scan;
      assert id in more;
    }
  }

  lemma KeyFreeExactly(rows: Rows, log: seq<Observation>, rest: seq<Candidate>, c: Candidate,
                       detector: DetectorType, ctx: Context)
    requires Distinct(CandidateIds(rest)) && Unlogged(log, CandidateIds(rest), ctx.scan)
    ensures var ids := CandidateIds(rest) + [c.identity];
            (exists o :: o in log + CandidateLog(rows, rest, detector, ctx)
                         && o.identity == c.identity && o.scan == ctx.scan)
            <==> !Distinct(ids) || !Unlogged(log, ids, ctx.scan)
    ensures c.identity in Ids(rest) ==> !Distinct(CandidateIds(rest) + [c.identity])
  {
    var more := CandidateLog(rows, rest, detector, ctx);
    var ids := CandidateIds(rest);
    var all := ids + [c.identity];
    CandidateLogKeys(rows, rest, detector, ctx);
    assert forall id :: id in all <==> id in ids || id == c.identity;
    if c.identity in Ids(rest) {
      var k :| 0 <= k < |rest| && rest[k].identity == c.identity;
      assert more[k] in log + more && all[k] == all[|ids|];
    } else {
      forall k | 0 <= k < |ids|
        ensures ids[k] != c.identity && more[k].identity != c.identity
      {
        assert rest[k] in rest;
      }
      assert forall o :: o in more ==> o.identity != c.identity;
      assert forall o :: o in log + more <==> o in log || o in more;
      if o :| o in log && o.identity == c.identity && o.scan == ctx.scan {
        assert c.identity in all && o in log + more;
      } else {
        assert Distinct(all) && Unlogged(log, all, ctx.scan);
      }
    }
  }

  lemma PlayStep(rows: Rows, rest: seq<Candidate>, c: Candidate, detector: DetectorType,
                 ctx: Context, before: Progress)
    requires c.identity !in Ids(rest)
    requires forall id :: Lookup(before.rows, id)
                          == CandidateNext(rows, rest, detector, ctx, id)
    ensures var row := Observed(Lookup(before.rows, c.identity), c, detector, ctx);
            forall id :: Lookup(before.rows[c.identity := row], id)
                         == CandidateNext(rows, rest + [c], detector, ctx, id)
    ensures Lookup(before.rows, c.identity) == Lookup(rows, c.identity)
    ensures CandidateTally(before.rows, c, detector, ctx) == CandidateTally(rows, c, detector, ctx)
  {
    var all := rest + [c];
    assert Lookup(before.rows, c.identity) == CandidateNext(rows, rest, detector, ctx, c.identity);
    assert Ids(all) == Ids(rest) + {c.identity} by {
      assert forall d :: d in all <==> d in rest || d == c;
    }
    assert all[..|all|-1] == rest;
    var row := Observed(Lookup(before.rows, c.identity), c, detector, ctx);
    forall id
      ensures Lookup(before.rows[c.identity := row], id)
           == CandidateNext(rows, all, detector, ctx, id)
    {
      assert Lookup(before.rows, id) == CandidateNext(rows, rest, detector, ctx, id);
    }
  }

  // Resolving every vanished finding of an observed cell gives the cell's pointwise meaning.
  lemma ObserveThenResolve(rows: Rows, seen: Rows, cell: Cell, ctx: Context,
                           existing: set<Identity>, after: Rows)
    requires cell.status.CellComplete?
    requires existing == set id | id in rows && InCell(cell, ctx, id)
    requires forall id :: Lookup(seen, id)
                          == CandidateNext(rows, cell.candidates, cell.detector, ctx, id)
    requires after == ResolveAll(seen, existing - Ids(cell.candidates), ctx.at)
    ensures after == AfterCell(rows, cell, ctx)
    ensures Live(seen, existing - Ids(cell.candidates)) == Vanished(rows, cell, ctx)
  {
    var spec := AfterCell(rows, cell, ctx);
    forall id
      ensures Lookup(after, id) == Lookup(spec, id)
    {
      assert Lookup(seen, id) == CandidateNext(rows, cell.candidates, cell.detector, ctx, id);
      LookupAfterCell(rows, cell, ctx, id);
    }
    SameLookups(after, spec);
    forall id
      ensures id in existing - Ids(cell.candidates) ==> id in seen && seen[id] == rows[id]
    {
      assert Lookup(seen, id) == CandidateNext(rows, cell.candidates, cell.detector, ctx, id);
    }
  }

  datatype Reconciled = Reconciled(tally: Tally, observed: seq<Finding>)

  const NOTHING: Reconciled := Reconciled(Tally(0, 0, 0, 0), [])

  function Identities(findings: seq<Finding>): seq<Identity> {
    seq(|findings|, i requires 0 <= i < |findings| => findings[i].identity)
  }

  class Session {
    var findings: map<Identity, Finding>
    var observations: seq<Observation>

    ghost predicate Valid()
      reads this`findings
    {
      forall id :: id in findings ==> findings[id].identity == id
    }

    function Rows(): Rows
      reads this`findings, findings.Values
    {
      map id | id in findings :: findings[id].Value()
    }

    constructor Open(rows: Rows, log: seq<Observation>)
      ensures Valid() && (forall id :: id in findings ==> fresh(findings[id]))
      ensures Rows() == rows && observations == log
    {
      findings := map[];
      observations := log;
      new;
      var todo := rows.Keys;
      while todo != {}
        invariant todo <= rows.Keys && findings.Keys == rows.Keys - todo
        invariant Valid() && forall id :: id in findings ==> fresh(findings[id])
        invariant forall id :: id in findings ==> findings[id].Value() == rows[id]
        invariant observations == log
        decreases |todo|
      {
        var id :| id in todo;
        var f := new Finding.Load(id, rows[id]);
        findings := findings[id := f];
        todo := todo - {id};
      }
    }

    // The identities known before keep their objects, and new ones get fresh objects.
    twostate predicate Grows()
      reads this`findings
    {
      forall id {:trigger id in findings} :: id in old(findings) || id in findings ==>
        id in findings
        && if id in old(findings) then findings[id] == old(findings[id]) else fresh(findings[id])
    }

    // Observes one candidate: looks its row up or inserts it, refreshes and reclassifies it.
    method Observe(c: Candidate, detector: DetectorType, ctx: Context)
      returns (f: Finding, counts: Tally)
      requires Valid()
      modifies this`findings, findings.Values
      ensures Valid() && Grows()
      ensures c.identity in findings && f == findings[c.identity]
      ensures f.Value() == Observed(Lookup(old(Rows()), c.identity), c, detector, ctx)
      ensures Rows() == old(Rows())[c.identity := f.Value()]
      ensures counts == CandidateTally(old(Rows()), c, detector, ctx)
    {
      hide Observed;
      var added := c.identity !in findings;
      if added {
        f := new Finding.Insert(c, detector, ctx);
        findings := findings[c.identity := f];
      } else {
        f := findings[c.identity];
        f.Continue(c, detector, ctx);
      }
      assert f.Value() == Observed(Lookup(old(Rows()), c.identity), c, detector, ctx);
      counts := Tally(if added then 1 else 0, if f.persistence.Persistent? then 1 else 0, 0,
                      if f.status.Ignored? then 1 else 0);
    }

    ghost function At(r: Reconciled): Progress
      reads this, findings.Values
    {
      Progress(Rows(), observations, r.tally, Identities(r.observed))
    }

    // The objects a reconciliation hands out are the session's own.
    ghost predicate Owns(observed: seq<Finding>)
      reads this`findings
    {
      forall f :: f in observed ==> f.identity in findings && findings[f.identity] == f
    }

    // Observes one candidate and writes its observation row.
    method Record(c: Candidate, detector: DetectorType, ctx: Context, r: Reconciled)
      returns (next: Option<Reconciled>)
      requires Valid() && Owns(r.observed)
      modifies this, findings.Values
      ensures Valid() && Grows()
      ensures next.None? <==> PlayOne(old(At(r)), c, detector, ctx).None?
      ensures next.Some? ==> Some(At(next.value)) == PlayOne(old(At(r)), c, detector, ctx)
                             && Owns(next.value.observed)
    {
      hide Observed, CandidateTally;
      var f, counts := Observe(c, detector, ctx);
      if exists o :: o in observations && o.identity == c.identity && o.scan == ctx.scan {
        return None;
      }
      observations := observations + [ObservationOf(c.identity, f.Value(), ctx)];
      next := Some(Reconciled(r.tally.Plus(counts), r.observed + [f]));
      assert Identities(r.observed + [f]) == Identities(r.observed) + [c.identity];
    }

    // Observes the candidates of a complete cell in order.
    method ObserveCandidates(candidates: seq<Candidate>, detector: DetectorType, ctx: Context)
      returns (r: Option<Reconciled>)
      requires Valid()
      modifies this, findings.Values
      ensures Valid() && Grows()
      ensures r.None? <==> Play(old(At(NOTHING)), candidates, detector, ctx).None?
      ensures r.Some? ==> Play(old(At(NOTHING)), candidates, detector, ctx) == Some(At(r.value))
                          && Owns(r.value.observed)
    {
      ghost var start := At(NOTHING);
      var done := NOTHING;
      for i := 0 to |candidates|
        invariant Valid() && Grows()
        invariant Play(start, candidates[..i], detector, ctx) == Some(At(done))
        invariant Owns(done.observed)
      {
        PlayExtends(start, candidates, i, detector, ctx);
        var next := Record(candidates[i], detector, ctx, done);
        if next.None? {
          PlayStops(start, candidates, i + 1, detector, ctx);
          return None;
        }
        done := next.value;
      }
      assert candidates[..|candidates|] == candidates;
      r := Some(done);
    }

    // The user's status change; unknown findings and other transitions are refused.
    method PatchFinding(id: Identity, target: FindingStatus, reason: Option<string>, now: Time)
      returns (accepted: bool)
      requires Valid()
      modifies findings.Values
      ensures accepted <==> id in old(Rows()) && Patch(old(Rows())[id], target, reason, now).Some?
      ensures Rows() == if accepted
                        then old(Rows())[id := Patch(old(Rows())[id], target, reason, now).value]
                        else old(Rows())
    {
      hide Patch;
      if id !in findings {
        return false;
      }
      ghost var before := Rows();
      accepted := findings[id].PatchStatus(target, reason, now);
      assert findings[id].Value() == if accepted then Patch(before[id], target, reason, now).value
                                     else before[id];
    }

    method ResolveOne(id: Identity, at: Time) returns (changed: bool)
      requires Valid() && id in findings
      modifies findings[id]
      ensures Rows() == old(Rows())[id := Resolve(old(Rows())[id], at)]
      ensures changed == !old(Rows())[id].status.Resolved?
    {
      ghost var before := Rows();
      changed := findings[id].ResolveAt(at);
      assert findings[id].Value() == Resolve(before[id], at);
    }

    // Resolves the live findings among these that the cell no longer reported.
    method ResolveMissing(existing: set<Identity>, seen: set<Identity>, at: Time)
      returns (resolved: nat)
      requires Valid() && existing <= findings.Keys
      modifies findings.Values
      ensures Rows() == ResolveAll(old(Rows()), existing - seen, at)
      ensures resolved == |Live(old(Rows()), existing - seen)|
    {
      ghost var before := Rows();
      resolved := 0;
      var todo := existing;
      ghost var done: set<Identity> := {};
      assert Live(before, done - seen) == {} && ResolveAll(before, done - seen, at) == before;
      hide Resolve, ResolveAll, Live;
      while todo != {}
        invariant todo <= existing && done == existing - todo
        invariant Rows() == ResolveAll(before, done - seen, at)
        invariant resolved == |Live(before, done - seen)|
        decreases |todo|
      {
        var id :| id in todo;
        if id !in seen {
          var changed := ResolveOne(id, at);
          resolved := if changed then resolved + 1 else resolved;
        }
        ResolveGrows(before, done, seen, id, at);
        todo, done := todo - {id}, done + {id};
      }
      assert done == existing;
    }

    /** Reconciles one detection cell. None stands for the integrity error that aborts the scan:
        it happens exactly when a (finding, scan) observation key would repeat. */
    method Reconcile(cell: Cell, ctx: Context) returns (r: Option<Reconciled>)
      requires Valid()
      modifies this, findings.Values
      ensures Valid() && Grows()
      ensures r.Some? <==> Distinct(CellIds(cell))
                           && Unlogged(old(observations), CellIds(cell), ctx.scan)
      ensures r.Some? ==>
                && Rows() == AfterCell(old(Rows()), cell, ctx)
                && observations == old(observations) + CellLog(old(Rows()), cell, ctx)
                && r.value.tally == CellTally(old(Rows()), cell, ctx)
                && Identities(r.value.observed) == CellIds(cell) && Owns(r.value.observed)
    {
      if !cell.status.CellComplete? {
        assert forall id :: CellNext(Rows(), cell, ctx, id) == Lookup(Rows(), id);
        return Some(NOTHING);
      }
      hide Observed, Resolve, CandidatesTally, CandidateLog, Play, Distinct, Unlogged;
      assert Identities(NOTHING.observed) == [];
      ghost var start := At(NOTHING);
      PlayMeans(start.rows, start.log, cell.candidates, cell.detector, ctx);
      var existing := set id | id in findings && InCell(cell, ctx, id);
      r := ObserveCandidates(cell.candidates, cell.detector, ctx);
      if r.None? {
        return;
      }
      ghost var seen := At(r.value);
      var seenIds := set f | f in r.value.observed :: f.identity;
      IdentitiesAsSet(r.value.observed, cell.candidates);
      var resolved := ResolveMissing(existing, seenIds, ctx.at);
      ObserveThenResolve(start.rows, seen.rows, cell, ctx, existing, Rows());
      r := Some(Reconciled(r.value.tally.Plus(Tally(0, 0, resolved, 0)), r.value.observed));
    }
  }

  function Live(rows: Rows, ids: set<Identity>): set<Identity> {
    set id | id in ids && id in rows && !rows[id].status.Resolved?
  }

  function ResolveAll(rows: Rows, ids: set<Identity>, at: Time): Rows {
    map id | id in rows :: if id in ids then Resolve(rows[id], at) else rows[id]
  }

  lemma ResolveGrows(rows: Rows, done: set<Identity>, seen: set<Identity>, id: Identity, at: Time)
    requires id !in done && id in rows
    ensures |Live(rows, done + {id} - seen)|
         == |Live(rows, done - seen)| + if id in seen || rows[id].status.Resolved? then 0 else 1
    ensures ResolveAll(rows, done + {id} - seen, at)
         == if id in seen then ResolveAll(rows, done - seen, at)
            else ResolveAll(rows, done - seen, at)[id := Resolve(rows[id], at)]
    ensures id !in seen ==> ResolveAll(rows, done - seen, at)[id] == rows[id]
  {
    if id in seen || rows[id].status.Resolved? {
      assert Live(rows, done + {id} - seen) == Live(rows, done - seen);
    } else {
      assert Live(rows, done + {id} - seen) == Live(rows, done - seen) + {id};
    }
  }

  lemma IdentitiesAsSet(observed: seq<Finding>, candidates: seq<Candidate>)
    requires Identities(observed) == CandidateIds(candidates)
    ensures (set f | f in observed :: f.identity) == Ids(candidates)
  {
    assert |Identities(observed)| == |CandidateIds(candidates)|;
    forall i | 0 <= i < |observed|
      ensures observed[i].identity == candidates[i].identity
    {
      assert Identities(observed)[i] == CandidateIds(candidates)[i];
    }
    forall id
      ensures id in (set f | f in observed :: f.identity) <==> id in Ids(candidates)
    {
      if id in Ids(candidates) {
        var i :| 0 <= i < |candidates| && candidates[i].identity == id;
        assert observed[i] in observed;
      }
      if f :| f in observed && f.identity == id {
        var i :| 0 <= i < |observed| && observed[i] == f;
        assert candidates[i] in candidates;
      }
    }
  }

  lemma PlayExtends(p: Progress, candidates: seq<Candidate>, i: nat, detector: DetectorType,
                    ctx: Context)
    requires i < |candidates|
    ensures var before := Play(p, candidates[..i], detector, ctx);
            Play(p, candidates[..i + 1], detector, ctx)
            == if before.None? then None
               else PlayOne(before.value, candidates[i], detector, ctx)
  {
    assert candidates[..i + 1][..i] == candidates[..i];
  }

  lemma {:induction false} PlayStops(p: Progress, candidates: seq<Candidate>, i: nat,
                                     detector: DetectorType, ctx: Context)
    requires i <= |candidates| && Play(p, candidates[..i], detector, ctx).None?
    ensures Play(p, candidates, detector, ctx).None?
  {
    if i == |candidates| {
      assert candidates[..i] == candidates;
    } else {
      assert candidates[..|candidates|-1][..i] == candidates[..i];
      PlayStops(p, candidates[..|candidates|-1], i, detector, ctx);
    }
  }
}
