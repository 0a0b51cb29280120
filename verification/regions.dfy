/** A scan over its regions: their order does not matter, and what the provider answers decides whether
    the scan gets through. */
module RegionOrder {
  import opened Domain
  import opened Scans
  import opened Runs
  import opened Engine
  import opened Confluence
  import opened History
  import opened ExposureHistory

  lemma {:induction false} CellsOfRegions(survey: Survey, known: seq<RegionInfo>,
                                          regions: seq<string>)
    ensures var cells := AllCells(Detections(survey, known, regions));
            forall c :: c in cells <==> c.region in regions
                                        && c in DetectionOf(survey, known, c.region).cells
  {
    if |regions| > 0 {
      var n := |regions| - 1;
      var rest := regions[..n];
      CellsOfRegions(survey, known, rest);
      hide DetectionOf, AllCells;
      assert Detections(survey, known, regions)[..n] == Detections(survey, known, rest);
      OneMoreRegion(survey, known, regions);
      forall c: Cell
        ensures c in DetectionOf(survey, known, regions[n]).cells ==> c.region == regions[n]
      {
        CellsOfOneRegion(survey, known, regions[n], c);
      }
      assert regions == rest + [regions[n]];
    }
  }

  lemma OneMoreRegion(survey: Survey, known: seq<RegionInfo>, regions: seq<string>)
    requires |regions| > 0
    ensures var n := |regions| - 1;
            AllCells(Detections(survey, known, regions))
            == AllCells(Detections(survey, known, regions[..n]))
               + DetectionOf(survey, known, regions[n]).cells
  {
    var n := |regions| - 1;
    assert Detections(survey, known, regions)[..n] == Detections(survey, known, regions[..n]);
  }

  lemma CellsOfOneRegion(survey: Survey, known: seq<RegionInfo>, region: string, c: Cell)
    ensures c in DetectionOf(survey, known, region).cells ==> c.region == region
    ensures DistinctCells(DetectionOf(survey, known, region).cells)
  {
    var cells := DetectionOf(survey, known, region).cells;
    assert forall k :: 0 <= k < |cells| ==>
             cells[k].region == region && cells[k].detector == DETECTORS[k];
  }

  /** A scan over distinct regions reconciles cells of distinct region and detector. */
  lemma {:induction false} ScanCellsAreDistinct(survey: Survey, known: seq<RegionInfo>,
                                                regions: seq<string>)
    requires Distinct(regions)
    ensures DistinctCells(AllCells(Detections(survey, known, regions)))
  {
    if |regions| > 0 {
      var n := |regions| - 1;
      var rest := regions[..n];
      ScanCellsAreDistinct(survey, known, rest);
      CellsOfRegions(survey, known, rest);
      OneMoreRegion(survey, known, regions);
      hide AllCells, DetectionOf, Detections;
      var before, last := AllCells(Detections(survey, known, rest)),
                          DetectionOf(survey, known, regions[n]).cells;
      var any := Cell(regions[n], UnattachedEbsVolume, CellFailed, []);
      CellsOfOneRegion(survey, known, regions[n], any);
      forall i, j | 0 <= i < |before| && 0 <= j < |last|
        ensures before[i].region != last[j].region
      {
        assert before[i] in before;
        CellsOfOneRegion(survey, known, regions[n], last[j]);
      }
    }
  }

  lemma SameMembersSameMultiset(a: seq<Cell>, b: seq<Cell>)
    requires Distinct(a) && Distinct(b) && forall c :: c in a <==> c in b
    ensures multiset(a) == multiset(b)
  {
    forall c: Cell
      ensures multiset(a)[c] == multiset(b)[c]
    {
      TwiceInDistinct(a, c);
      TwiceInDistinct(b, c);
      assert (c in a <==> c in multiset(a)) && (c in b <==> c in multiset(b));
    }
  }

  function Mapped(f: Identity -> Observation, ids: seq<Identity>): seq<Observation> {
    seq(|ids|, i requires 0 <= i < |ids| => f(ids[i]))
  }

  lemma MappedAroundOne(f: Identity -> Observation, a: seq<Identity>, id: Identity,
                        b: seq<Identity>)
    ensures multiset(Mapped(f, a + [id] + b)) == multiset(Mapped(f, a + b)) + multiset{f(id)}
  {
    assert Mapped(f, a + [id] + b) == Mapped(f, a) + [f(id)] + Mapped(f, b);
    assert Mapped(f, a + b) == Mapped(f, a) + Mapped(f, b);
  }

  lemma {:induction false} MappedPermutes(f: Identity -> Observation, a: seq<Identity>,
                                          b: seq<Identity>)
    requires multiset(a) == multiset(b)
    ensures multiset(Mapped(f, a)) == multiset(Mapped(f, b))
  {
    if |a| == 0 {
      assert |multiset(b)| == 0;
    } else {
      hide Mapped;
      var n := |a| - 1;
      var k := Without(a, b);
      MappedPermutes(f, a[..n], b[..k] + b[k + 1..]);
      MappedAroundOne(f, a[..n], a[n], []);
      MappedAroundOne(f, b[..k], a[n], b[k + 1..]);
      assert a[..n] + [a[n]] + [] == a && a[..n] + [] == a[..n];
    }
  }

  // The observation rows of a scan, read off the rows it leaves.
  lemma LogIsMapped(rows: Rows, cells: seq<Cell>, ctx: Context, f: Identity -> Observation)
    requires Sound(cells, ctx) && Distinct(CellsIds(cells))
    requires var after := AfterCells(rows, cells, ctx);
             forall id :: id in after ==> f(id) == ObservationOf(id, after[id], ctx)
    ensures CellsLog(rows, cells, ctx) == Mapped(f, CellsIds(cells))
  {
    hide AfterCells, ObservationOf, Sound, Distinct;
    CellsLogKeys(rows, cells, ctx);
    forall k | 0 <= k < |CellsIds(cells)|
      ensures CellsLog(rows, cells, ctx)[k] == f(CellsIds(cells)[k])
    {
      LogIsLastWord(rows, cells, ctx, k);
    }
    hide CellsLog, CellsIds;
  }

  // Cells in another order write the same observation rows in another order.
  lemma SameLog(rows: Rows, a: seq<Cell>, b: seq<Cell>, ctx: Context)
    requires multiset(a) == multiset(b) && Sound(a, ctx) && Sound(b, ctx)
    requires Distinct(CellsIds(a)) && Distinct(CellsIds(b))
    requires AfterCells(rows, a, ctx) == AfterCells(rows, b, ctx)
    ensures multiset(CellsLog(rows, a, ctx)) == multiset(CellsLog(rows, b, ctx))
  {
    hide AfterCells, CellsLog, CellsIds, Sound, Distinct, ObservationOf;
    var after := AfterCells(rows, a, ctx);
    var blank := Row(Open, 0, 0, 0, 0, 0, NewlyObserved, Low, LowCost, None, Unknown, [],
                     Facts("", "", "", None, []), None, None, None, None, 0, 0, 0, 0);
    var f := (id: Identity) => ObservationOf(id, if id in after then after[id] else blank, ctx);
    LogIsMapped(rows, a, ctx, f);
    LogIsMapped(rows, b, ctx, f);
    IdsPermute(a, b);
    MappedPermutes(f, CellsIds(a), CellsIds(b));
  }

  /** A scan over the same distinct regions in any order commits or raises alike and leaves the same
      rows, the same counters, the same exposure sums and, up to their order, the same observation
      rows. */
  lemma RegionOrderDoesNotMatter(db: Db, survey: Survey, known: seq<RegionInfo>, a: seq<string>,
                                 b: seq<string>, ctx: Context)
    requires Distinct(a) && Distinct(b) && forall r :: r in a <==> r in b
    requires Stamps(survey, ctx.account)
    ensures var first := Apply(db, ScanStep(ctx, AllCells(Detections(survey, known, a))));
            var second := Apply(db, ScanStep(ctx, AllCells(Detections(survey, known, b))));
            && first.rows == second.rows && first.scans == second.scans
            && multiset(first.log) == multiset(second.log)
  {
    var cells := AllCells(Detections(survey, known, a));
    var other := AllCells(Detections(survey, known, b));
    ScanCellsAreDistinct(survey, known, a);
    ScanCellsAreDistinct(survey, known, b);
    CellsOfRegions(survey, known, a);
    CellsOfRegions(survey, known, b);
    ScanCellsAreSound(survey, known, a, ctx);
    ScanCellsAreSound(survey, known, b, ctx);
    hide AllCells, Detections, DetectionOf, AfterCells, CellsLog, CellsTally, CellsIds, RowsExposure;
    assert Distinct(cells) && Distinct(other);
    SameMembersSameMultiset(cells, other);
    CellOrderDoesNotMatter(db, cells, other, ctx);
    if Commits(db.log, cells, ctx.scan) {
      SameLog(db.rows, cells, other, ctx);
    }
  }

  // ---- when a scan gets through -----------------------------------------------------------

  lemma {:induction false} IdsOfCells(cells: seq<Cell>, id: Identity)
    ensures id in CellsIds(cells) <==> exists c :: c in cells && id in CellIds(c)
  {
    if |cells| > 0 {
      hide CellIds;
      var rest, last := cells[..|cells|-1], cells[|cells|-1];
      assert cells == rest + [last];
      IdsOfCells(rest, id);
    }
  }

  lemma JoinIsDistinct<T>(a: seq<T>, b: seq<T>)
    requires forall x :: x in a ==> x !in b
    ensures Distinct(a + b) <==> Distinct(a) && Distinct(b)
  {
    var all := a + b;
    if Distinct(all) {
      DistinctParts(a, b);
    }
    if Distinct(a) && Distinct(b) {
      forall i, j | 0 <= i < j < |all|
        ensures all[i] != all[j]
      {
        if i < |a| && j >= |a| {
          assert all[i] in a && all[j] in b;
        }
      }
    }
  }

  lemma SharedIsNotDistinct<T>(a: seq<T>, b: seq<T>, x: T)
    requires x in a && x in b
    ensures !Distinct(a + b)
  {
    var i :| 0 <= i < |a| && a[i] == x;
    var j :| 0 <= j < |b| && b[j] == x;
    assert (a + b)[i] == x && (a + b)[|a| + j] == x;
  }

  lemma IdIsOfCell(cell: Cell, ctx: Context, id: Identity)
    requires Stamped(cell, ctx) && id in CellIds(cell)
    ensures InCell(cell, ctx, id)
  {
    var k :| 0 <= k < |cell.candidates| && cell.candidates[k].identity == id;
    assert cell.candidates[k] in cell.candidates;
  }

  lemma OutsideCell(cell: Cell, ctx: Context, id: Identity)
    requires Stamped(cell, ctx) && !InCell(cell, ctx, id)
    ensures id !in CellIds(cell)
  {
    forall k | 0 <= k < |CellIds(cell)|
      ensures CellIds(cell)[k] != id
    {
      IdIsOfCell(cell, ctx, CellIds(cell)[k]);
    }
  }

  // Stamped cells of distinct region and detector share no identity, so each answers for itself.
  lemma {:induction false} DistinctCellByCell(cells: seq<Cell>, ctx: Context)
    requires DistinctCells(cells) && AllStamped(cells, ctx)
    ensures Distinct(CellsIds(cells)) <==> forall c :: c in cells ==> Distinct(CellIds(c))
  {
    if |cells| > 0 {
      hide CellIds, Stamped, Distinct;
      var rest, last := cells[..|cells|-1], cells[|cells|-1];
      assert cells == rest + [last];
      DistinctCellByCell(rest, ctx);
      forall id | id in CellsIds(rest)
        ensures id !in CellIds(last)
      {
        IdsOfCells(rest, id);
        var c :| c in rest && id in CellIds(c);
        IdIsOfCell(c, ctx, id);
        var k :| 0 <= k < |rest| && rest[k] == c;
        assert cells[k] == c && cells[|rest|] == last;
        OutsideCell(last, ctx, id);
      }
      JoinIsDistinct(CellsIds(rest), CellIds(last));
    }
  }

  // No detector that completed in the region found anything.
  ghost predicate NoCandidates(survey: Survey, known: seq<RegionInfo>, region: string) {
    forall c :: c in DetectionOf(survey, known, region).cells ==> CellIds(c) == []
  }

  ghost predicate EachDistinct(survey: Survey, known: seq<RegionInfo>, region: string) {
    forall c :: c in DetectionOf(survey, known, region).cells ==> Distinct(CellIds(c))
  }

  // Every completed detector names each resource once, and a region listed twice has none.
  ghost predicate NothingTwice(survey: Survey, known: seq<RegionInfo>, regions: seq<string>) {
    && (forall r :: r in regions ==> EachDistinct(survey, known, r))
    && (forall i, j :: 0 <= i < j < |regions| && regions[i] == regions[j] ==>
          NoCandidates(survey, known, regions[i]))
  }

  lemma OneRegion(survey: Survey, known: seq<RegionInfo>, region: string, ctx: Context)
    requires Stamps(survey, ctx.account)
    ensures var cells := DetectionOf(survey, known, region).cells;
            && (Distinct(CellsIds(cells)) <==> EachDistinct(survey, known, region))
            && (CellsIds(cells) == [] <==> NoCandidates(survey, known, region))
  {
    var d := DetectionOf(survey, known, region);
    OneMoreRegion(survey, known, [region]);
    assert [region][..0] == [];
    assert AllCells(Detections(survey, known, [])) == [];
    assert AllCells(Detections(survey, known, [region])) == d.cells;
    ScanCellsAreSound(survey, known, [region], ctx);
    CellsOfOneRegion(survey, known, region, Cell(region, UnattachedEbsVolume, CellFailed, []));
    hide DetectionOf, DistinctCells, Stamped, CellIds, Distinct;
    assert AllStamped(d.cells, ctx);
    DistinctCellByCell(d.cells, ctx);
    NothingInNothing(d.cells);
  }

  lemma {:induction false} NothingInNothing(cells: seq<Cell>)
    ensures CellsIds(cells) == [] <==> forall c :: c in cells ==> CellIds(c) == []
  {
    if |cells| > 0 {
      hide CellIds;
      assert cells == cells[..|cells|-1] + [cells[|cells|-1]];
      NothingInNothing(cells[..|cells|-1]);
    }
  }

  // Whether the ids of the regions before the last one meet those of the last one.
  lemma SharedExactly(survey: Survey, known: seq<RegionInfo>, rest: seq<string>, region: string,
                      ctx: Context, id: Identity)
    requires Stamps(survey, ctx.account)
    requires id in CellsIds(DetectionOf(survey, known, region).cells)
    ensures id in CellsIds(AllCells(Detections(survey, known, rest))) <==> region in rest
  {
    var cells, own := AllCells(Detections(survey, known, rest)), DetectionOf(survey, known, region).cells;
    CellsOfRegions(survey, known, rest);
    ScanCellsAreSound(survey, known, rest, ctx);
    RegionIsSound(survey, known, region, ctx);
    hide AllCells, Detections, DetectionOf, CellIds, Stamped;
    IdsOfCells(own, id);
    var c :| c in own && id in CellIds(c);
    CellsOfOneRegion(survey, known, region, c);
    IdIsOfCell(c, ctx, id);
    IdsOfCells(cells, id);
    if region in rest {
      assert c in cells;
    }
    if id in CellsIds(cells) {
      var d :| d in cells && id in CellIds(d);
      IdIsOfCell(d, ctx, id);
      assert d.region == region;
    }
  }

  lemma RegionIsSound(survey: Survey, known: seq<RegionInfo>, region: string, ctx: Context)
    requires Stamps(survey, ctx.account)
    ensures AllStamped(DetectionOf(survey, known, region).cells, ctx)
  {
    OneMoreRegion(survey, known, [region]);
    assert [region][..0] == [];
    assert AllCells(Detections(survey, known, [])) == [];
    ScanCellsAreSound(survey, known, [region], ctx);
  }

  lemma {:induction false} DistinctExactly(survey: Survey, known: seq<RegionInfo>,
                                           regions: seq<string>, ctx: Context)
    requires Stamps(survey, ctx.account)
    ensures Distinct(CellsIds(AllCells(Detections(survey, known, regions))))
       <==> NothingTwice(survey, known, regions)
  {
    if |regions| > 0 {
      var rest, last := regions[..|regions|-1], regions[|regions|-1];
      DistinctExactly(survey, known, rest, ctx);
      OneMoreRegion(survey, known, regions);
      OneRegion(survey, known, last, ctx);
      NothingTwiceStep(survey, known, regions);
      hide AllCells, Detections, DetectionOf, NothingTwice, NoCandidates, EachDistinct, CellsIds;
      var before := AllCells(Detections(survey, known, rest));
      var own := DetectionOf(survey, known, last).cells;
      IdsAppend(before, own);
      var a, b := CellsIds(before), CellsIds(own);
      forall id | id in b
        ensures id in a <==> last in rest
      {
        SharedExactly(survey, known, rest, last, ctx, id);
      }
      if last in rest && b != [] {
        SharedIsNotDistinct(a, b, b[0]);
      } else {
        JoinIsDistinct(a, b);
      }
    }
  }

  lemma NothingTwiceStep(survey: Survey, known: seq<RegionInfo>, regions: seq<string>)
    requires |regions| > 0
    ensures var rest, last := regions[..|regions|-1], regions[|regions|-1];
            NothingTwice(survey, known, regions)
            <==> NothingTwice(survey, known, rest) && EachDistinct(survey, known, last)
                 && (last in rest ==> NoCandidates(survey, known, last))
  {
    hide EachDistinct, NoCandidates;
    var n := |regions| - 1;
    var rest, last := regions[..n], regions[n];
    assert regions == rest + [last];
    if last in rest {
      var i :| 0 <= i < n && rest[i] == last;
      assert regions[i] == regions[n];
    }
  }

  /** A scan whose id is fresh gets through, whatever the provider answers, exactly when every completed
      detector names each resource once and no region that is listed twice has a candidate: a region
      configured twice makes every scan raise from its first candidate on. */
  lemma ScanCommitsExactly(survey: Survey, known: seq<RegionInfo>, regions: seq<string>,
                           log: seq<Observation>, ctx: Context)
    requires Stamps(survey, ctx.account) && forall o :: o in log ==> o.scan != ctx.scan
    ensures Commits(log, AllCells(Detections(survey, known, regions)), ctx.scan)
       <==> NothingTwice(survey, known, regions)
  {
    hide AllCells, Detections, CellsIds, Distinct, NothingTwice;
    DistinctExactly(survey, known, regions, ctx);
  }
}
