/** The tariff calculator: what volumes, addresses, snapshots and stopped instances cost a month. */
module Calculator {
  import opened Domain
  import opened Sorting
  import opened Decimals

  // IOPS from begin up to end (all further ones if there is no end) cost this much each.
  datatype Tier = Tier(begin: int, end: Option<int>, price: Decimal)

  datatype VolumePrices = VolumePrices(
    storage: Decimal, iops: Option<Decimal>, throughput: Option<Decimal>, tiers: seq<Tier>)

  datatype UnitPrices = UnitPrices(
    volumes: map<string, VolumePrices>, snapshotStandard: Option<Decimal>,
    snapshotArchive: Option<Decimal>, ipv4Hourly: Option<Decimal>)

  datatype Volume = Volume(
    region: string, volumeType: string, size: int, iops: Option<int>, throughput: Option<int>)

  datatype Request =
    | Ebs(volume: Volume)
    | Address(region: string)
    | Snapshot(region: string, size: int, tier: string)
    | Stopped(region: string, volumes: seq<Volume>, addresses: int)

  datatype Label =
    | StorageOf(volumeType: string, size: int)
    | Gp3Iops
    | Gp3Throughput
    | Io1Iops
    | Io2Tier(index: nat)
    | Io2Iops
    | OneAddress
    | SnapshotBound(tier: string, size: int)
    | Addresses

  datatype Unit = GibMonth | IopsMonth | MibpsMonth | Hour

  datatype Line = Line(item: Label, quantity: int, unit: Unit, unitPrice: real, cost: real)

  datatype Note = MagneticExcluded | SnapshotsIncremental | ComputeNotBilled

  datatype Estimate = Estimate(amount: real, lines: seq<Line>, notes: seq<Note>)

  datatype LookupError = UnknownVolumeType(volumeType: string) | MissingPrice(item: Label)

  const HOURS: int := 730

  function Max(a: int, b: int): int { if a < b then b else a }
  function Min(a: int, b: int): int { if b < a then b else a }

  function Cost(quantity: int, price: real): real {
    quantity as real * price
  }

  function MakeLine(item: Label, quantity: int, unit: Unit, unitPrice: real): Line {
    Line(item, quantity, unit, unitPrice, Cost(quantity, unitPrice))
  }

  function OrZero(x: Option<int>): int {
    if x.Some? then x.value else 0
  }

  function SumCost(lines: seq<Line>): real {
    if |lines| == 0 then 0.0 else SumCost(lines[..|lines| - 1]) + lines[|lines| - 1].cost
  }

  lemma {:induction false} SumCostAppend(a: seq<Line>, b: seq<Line>)
    ensures SumCost(a + b) == SumCost(a) + SumCost(b)
  {
    if |b| == 0 {
      assert a + b == a;
    } else {
      assert (a + b)[..|a + b| - 1] == a + b[..|b| - 1];
      SumCostAppend(a, b[..|b| - 1]);
    }
  }

  // ---- progressive tiers ------------------------------------------------------------------

  const BY_BEGIN: (Tier, Tier) -> bool := (a: Tier, b: Tier) => a.begin <= b.begin

  // The part of the provisioned IOPS that falls into a tier.
  function Share(tier: Tier, provisioned: int): int {
    var upper := if tier.end.Some? then tier.end.value else provisioned;
    Max(Min(provisioned, upper) - tier.begin, 0)
  }

  // The lines of the tiers, which are numbered from here on; empty shares have no line.
  function TierLines(tiers: seq<Tier>, provisioned: int, index: nat): seq<Line> {
    if |tiers| == 0 then []
    else
      var share, rest := Share(tiers[0], provisioned), TierLines(tiers[1..], provisioned, index + 1);
      if share == 0 then rest
      else [MakeLine(Io2Tier(index), share, IopsMonth, tiers[0].price)] + rest
  }

  function Quantity(tiers: seq<Tier>, provisioned: int): int {
    if |tiers| == 0 then 0 else Share(tiers[0], provisioned) + Quantity(tiers[1..], provisioned)
  }

  function Charge(tiers: seq<Tier>, provisioned: int): real {
    if |tiers| == 0 then 0.0
    else Cost(Share(tiers[0], provisioned), tiers[0].price) + Charge(tiers[1..], provisioned)
  }

  lemma {:induction false} TierLinesCost(tiers: seq<Tier>, provisioned: int, index: nat)
    ensures SumCost(TierLines(tiers, provisioned, index)) == Charge(tiers, provisioned)
  {
    if |tiers| > 0 {
      TierLinesCost(tiers[1..], provisioned, index + 1);
      var first := [MakeLine(Io2Tier(index), Share(tiers[0], provisioned), IopsMonth, tiers[0].price)];
      assert first[..0] == [];
      SumCostAppend(first, TierLines(tiers[1..], provisioned, index + 1));
    }
  }

  // The n-th IOPS, counted from zero, belongs to the tier.
  predicate Contains(tier: Tier, n: int) {
    tier.begin <= n && (tier.end.None? || n < tier.end.value)
  }

  // How many tiers the n-th IOPS belongs to, and what they charge for it.
  function Cover(tiers: seq<Tier>, n: int): nat {
    if |tiers| == 0 then 0 else (if Contains(tiers[0], n) then 1 else 0) + Cover(tiers[1..], n)
  }

  function PriceOf(tiers: seq<Tier>, n: int): real {
    if |tiers| == 0 then 0.0
    else (if Contains(tiers[0], n) then tiers[0].price else 0.0) + PriceOf(tiers[1..], n)
  }

  // The per-IOPS reference: every provisioned IOPS priced by the tiers that contain it.
  function PerIops(tiers: seq<Tier>, provisioned: nat): real {
    if provisioned == 0 then 0.0
    else PerIops(tiers, provisioned - 1) + PriceOf(tiers, provisioned - 1)
  }

  // No part of the tier lies below zero; the price list may state any bounds.
  predicate StartsAboveZero(tier: Tier) {
    tier.begin >= 0 || (tier.end.Some? && tier.end.value <= tier.begin)
  }

  ghost predicate NoneBelowZero(tiers: seq<Tier>) {
    forall t :: t in tiers ==> StartsAboveZero(t)
  }

  lemma ShareStep(tier: Tier, n: nat)
    ensures Share(tier, n) >= 0 && (Share(tier, 0) == 0 <==> StartsAboveZero(tier))
    ensures Share(tier, n + 1) == Share(tier, n) + if Contains(tier, n) then 1 else 0
  {
  }

  lemma ChargeStep(tier: Tier, n: nat)
    ensures Cost(Share(tier, n + 1), tier.price)
         == Cost(Share(tier, n), tier.price) + if Contains(tier, n) then tier.price else 0.0
  {
    ShareStep(tier, n);
    hide Share;
    assert (Share(tier, n) + 1) as real * tier.price
        == Share(tier, n) as real * tier.price + tier.price;
  }

  lemma {:induction false} OneMoreIops(tiers: seq<Tier>, n: nat)
    ensures Quantity(tiers, n + 1) == Quantity(tiers, n) + Cover(tiers, n)
    ensures Charge(tiers, n + 1) == Charge(tiers, n) + PriceOf(tiers, n)
  {
    hide Cost, Share, Contains;
    if |tiers| > 0 {
      ShareStep(tiers[0], n);
      ChargeStep(tiers[0], n);
      OneMoreIops(tiers[1..], n);
    }
  }

  // What is charged for no IOPS at all: the parts of the tiers that lie below zero.
  lemma {:induction false} NothingForNothing(tiers: seq<Tier>)
    ensures Quantity(tiers, 0) >= 0 && (Quantity(tiers, 0) == 0 <==> NoneBelowZero(tiers))
    ensures NoneBelowZero(tiers) ==> Charge(tiers, 0) == 0.0
  {
    if |tiers| > 0 {
      assert tiers == [tiers[0]] + tiers[1..];
      ShareStep(tiers[0], 0);
      NothingForNothing(tiers[1..]);
    }
  }

  /** Whatever the table, in whatever order, the charge is the sum over the provisioned IOPS of what
      the tiers containing each of them charge for it, on top of what the table charges for none. */
  lemma {:induction false} ChargeIsPerIops(tiers: seq<Tier>, provisioned: nat)
    ensures Charge(tiers, provisioned) == Charge(tiers, 0) + PerIops(tiers, provisioned)
  {
    if provisioned > 0 {
      ChargeIsPerIops(tiers, provisioned - 1);
      OneMoreIops(tiers, provisioned - 1);
    }
  }

  ghost predicate ChargesPerIops(tiers: seq<Tier>) {
    forall n: nat :: Charge(tiers, n) == PerIops(tiers, n)
  }

  /** The charge prices each IOPS by the tiers that contain it, however many are provisioned, exactly
      when the table charges nothing for none; a table without parts below zero does not. */
  lemma {:induction false} ChargesPerIopsExactly(tiers: seq<Tier>)
    ensures ChargesPerIops(tiers) <==> Charge(tiers, 0) == 0.0
    ensures NoneBelowZero(tiers) ==> ChargesPerIops(tiers)
  {
    NothingForNothing(tiers);
    assert PerIops(tiers, 0) == 0.0;
    forall n: nat
      ensures Charge(tiers, n) == Charge(tiers, 0) + PerIops(tiers, n)
    {
      ChargeIsPerIops(tiers, n);
    }
    if ChargesPerIops(tiers) {
      assert Charge(tiers, 0) == PerIops(tiers, 0);
    }
  }

  /** With positive prices the charge prices each IOPS by its tiers exactly when no tier reaches below
      zero. */
  lemma {:induction false} PositiveTablesChargePerIopsExactly(tiers: seq<Tier>)
    requires forall t :: t in tiers ==> t.price > 0.0
    ensures ChargesPerIops(tiers) <==> NoneBelowZero(tiers)
  {
    ChargesPerIopsExactly(tiers);
    PositiveForNothing(tiers);
  }

  lemma {:induction false} PositiveForNothing(tiers: seq<Tier>)
    requires forall t :: t in tiers ==> t.price > 0.0
    ensures Charge(tiers, 0) >= 0.0 && (Charge(tiers, 0) == 0.0 <==> NoneBelowZero(tiers))
  {
    if |tiers| > 0 {
      assert tiers == [tiers[0]] + tiers[1..];
      ShareStep(tiers[0], 0);
      PositiveForNothing(tiers[1..]);
      PositiveCost(Share(tiers[0], 0), tiers[0].price);
      hide Cost, Share, StartsAboveZero;
    }
  }

  lemma PositiveCost(quantity: nat, price: real)
    requires price > 0.0
    ensures Cost(quantity, price) >= 0.0 && (Cost(quantity, price) == 0.0 <==> quantity == 0)
  {
  }

  /** A tier that begins below zero, which the price list can state, is charged for IOPS nobody has. */
  lemma NegativeBeginOvercharges(price: Decimal)
    requires price > 0.0
    ensures var tiers := [Tier(-10, None, price)];
            Charge(tiers, 0) == 10.0 * price && PerIops(tiers, 0) == 0.0
            && Quantity(tiers, 0) == 10 && !ChargesPerIops(tiers) && !AddsUp(tiers)
  {
    var tiers := [Tier(-10, None, price)];
    assert tiers[1..] == [];
    assert Charge(tiers, 0) == 10.0 * price && PerIops(tiers, 0) == 0.0 && Quantity(tiers, 0) == 10;
  }

  ghost predicate AddsUp(tiers: seq<Tier>) {
    forall n: nat :: Quantity(tiers, n) == n
  }

  ghost predicate CoversOnce(tiers: seq<Tier>) {
    forall n: nat :: Cover(tiers, n) == 1
  }

  /** The tier quantities add up to the provisioned IOPS, however many, exactly when every IOPS
      belongs to exactly one tier and no tier reaches below zero. */
  lemma {:induction false} QuantitiesAddUpExactly(tiers: seq<Tier>)
    ensures AddsUp(tiers) <==> CoversOnce(tiers) && NoneBelowZero(tiers)
  {
    NothingForNothing(tiers);
    if AddsUp(tiers) {
      assert Quantity(tiers, 0) == 0;
      forall n: nat
        ensures Cover(tiers, n) == 1
      {
        OneMoreIops(tiers, n);
        assert Quantity(tiers, n) == n && Quantity(tiers, n + 1) == n + 1;
      }
    }
    if CoversOnce(tiers) && NoneBelowZero(tiers) {
      forall n: nat
        ensures Quantity(tiers, n) == n
      {
        CoveredOnce(tiers, n);
      }
    }
  }

  lemma {:induction false} CoveredOnce(tiers: seq<Tier>, n: nat)
    requires NoneBelowZero(tiers) && forall k: nat :: k < n ==> Cover(tiers, k) == 1
    ensures Quantity(tiers, n) == n
  {
    if n == 0 {
      NothingForNothing(tiers);
    } else {
      CoveredOnce(tiers, n - 1);
      OneMoreIops(tiers, n - 1);
    }
  }

  // Tiers that follow each other without gap or overlap, from here to infinity.
  ghost predicate Contiguous(tiers: seq<Tier>, from: int) {
    && |tiers| > 0 && tiers[0].begin == from
    && if |tiers| == 1 then tiers[0].end.None?
       else tiers[0].end.Some? && from < tiers[0].end.value
            && Contiguous(tiers[1..], tiers[0].end.value)
  }

  lemma {:induction false} ContiguousIsStrict(tiers: seq<Tier>, from: int)
    requires Contiguous(tiers, from)
    ensures Strict(tiers, BY_BEGIN)
    ensures forall t :: t in tiers ==> from <= t.begin
  {
    if |tiers| > 1 {
      ContiguousIsStrict(tiers[1..], tiers[0].end.value);
      assert tiers == [tiers[0]] + tiers[1..];
      forall j | 0 < j < |tiers|
        ensures tiers[0].begin < tiers[j].begin
      {
        assert tiers[j] in tiers[1..];
      }
    }
  }

  // The price of the one tier an IOPS belongs to.
  lemma {:induction false} ContiguousCoversOnce(tiers: seq<Tier>, from: int, n: int)
    requires Contiguous(tiers, from)
    ensures Cover(tiers, n) == if from <= n then 1 else 0
    ensures n < from ==> PriceOf(tiers, n) == 0.0
    ensures from <= n ==> exists t :: t in tiers && Contains(t, n) && PriceOf(tiers, n) == t.price
  {
    if |tiers| == 1 {
      assert tiers[1..] == [];
      assert Cover(tiers[1..], n) == 0 && PriceOf(tiers[1..], n) == 0.0;
    } else {
      ContiguousCoversOnce(tiers[1..], tiers[0].end.value, n);
      assert tiers == [tiers[0]] + tiers[1..];
    }
    if Contains(tiers[0], n) {
      assert tiers[0] in tiers;
    }
  }

  // A table that can be put in contiguous order from zero on.
  ghost predicate Progressive(tiers: seq<Tier>) {
    exists c :: Contiguous(c, 0) && multiset(c) == multiset(tiers)
  }

  lemma {:induction false} ProgressiveIsContiguous(tiers: seq<Tier>)
    requires Progressive(tiers)
    ensures Contiguous(Sorted(tiers, BY_BEGIN), 0)
  {
    var c :| Contiguous(c, 0) && multiset(c) == multiset(tiers);
    ContiguousIsStrict(c, 0);
    SortedSorts(tiers, BY_BEGIN);
    SortedPermutes(tiers, BY_BEGIN);
    StrictIsUnique(Sorted(tiers, BY_BEGIN), c, BY_BEGIN);
  }

  ghost predicate Within(tiers: seq<Tier>, least: real, greatest: real) {
    forall t :: t in tiers ==> least <= t.price <= greatest
  }

  /** A progressive table in any order: the quantities add up to the provisioned IOPS, the charge is
      that of pricing each IOPS by its own tier, and it lies between the IOPS at the least and at the
      greatest price. */
  lemma {:induction false} ProgressiveTiers(tiers: seq<Tier>, provisioned: nat, least: real,
                                            greatest: real)
    requires Progressive(tiers) && Within(tiers, least, greatest)
    ensures var sorted := Sorted(tiers, BY_BEGIN);
            && Quantity(sorted, provisioned) == provisioned
            && Charge(sorted, provisioned) == PerIops(sorted, provisioned)
            && CoversOnce(sorted)
            && provisioned as real * least <= Charge(sorted, provisioned)
            && Charge(sorted, provisioned) <= provisioned as real * greatest
  {
    var sorted := Sorted(tiers, BY_BEGIN);
    ProgressiveIsContiguous(tiers);
    ContiguousIsStrict(sorted, 0);
    forall n: nat
      ensures Cover(sorted, n) == 1
    {
      ContiguousCoversOnce(sorted, 0, n);
    }
    CoveredOnce(sorted, provisioned);
    NothingForNothing(sorted);
    ChargeIsPerIops(sorted, provisioned);
    SortedPermutes(tiers, BY_BEGIN);
    forall t | t in sorted
      ensures least <= t.price <= greatest
    {
      assert t in multiset(sorted);
    }
    PerIopsIsBounded(sorted, provisioned, least, greatest);
  }

  lemma {:induction false} PerIopsIsBounded(tiers: seq<Tier>, provisioned: nat, least: real,
                                            greatest: real)
    requires Contiguous(tiers, 0) && Within(tiers, least, greatest)
    ensures provisioned as real * least <= PerIops(tiers, provisioned)
    ensures PerIops(tiers, provisioned) <= provisioned as real * greatest
  {
    hide PriceOf, Contiguous, Within;
    if provisioned > 0 {
      var n := provisioned - 1;
      PerIopsIsBounded(tiers, n, least, greatest);
      OnePriceIsBounded(tiers, n, least, greatest);
      OneMoreOf(n, least);
      OneMoreOf(n, greatest);
      assert PerIops(tiers, provisioned) == PerIops(tiers, n) + PriceOf(tiers, n);
    }
  }

  lemma OnePriceIsBounded(tiers: seq<Tier>, n: nat, least: real, greatest: real)
    requires Contiguous(tiers, 0) && Within(tiers, least, greatest)
    ensures least <= PriceOf(tiers, n) <= greatest
  {
    ContiguousCoversOnce(tiers, 0, n);
  }

  lemma OneMoreOf(n: nat, price: real)
    ensures (n + 1) as real * price == n as real * price + price
  {
    assert (n + 1) as real == n as real + 1.0;
  }

  ghost predicate NoNegativePrice(tiers: seq<Tier>) {
    forall t :: t in tiers ==> t.price >= 0.0
  }

  lemma ShareIsMonotone(tier: Tier, less: int, more: int)
    requires less <= more
    ensures Share(tier, less) <= Share(tier, more)
  {
  }

  lemma {:induction false} ChargeIsMonotone(tiers: seq<Tier>, less: int, more: int)
    requires NoNegativePrice(tiers) && less <= more
    ensures Charge(tiers, less) <= Charge(tiers, more)
  {
    hide Cost, Share;
    if |tiers| > 0 {
      ShareIsMonotone(tiers[0], less, more);
      ChargeIsMonotone(tiers[1..], less, more);
      TimesIsMonotone(Share(tiers[0], less), Share(tiers[0], more), tiers[0].price);
    }
  }

  lemma TimesIsMonotone(a: int, b: int, price: real)
    requires a <= b && price >= 0.0
    ensures Cost(a, price) <= Cost(b, price)
  {
    assert 0.0 <= (b - a) as real * price;
    assert (b - a) as real * price == b as real * price - a as real * price;
  }

  // ---- one volume -------------------------------------------------------------------------

  // A line for a quantity that needs a price; a zero quantity of an optional extra has no line.
  function Extra(item: Label, quantity: int, unit: Unit, price: Option<real>, optional: bool)
    : Result<seq<Line>, LookupError>
  {
    if optional && quantity == 0 then Ok([])
    else if price.None? then Err(MissingPrice(item))
    else Ok([MakeLine(item, quantity, unit, price.value)])
  }

  function Join(a: Result<seq<Line>, LookupError>, b: Result<seq<Line>, LookupError>)
    : Result<seq<Line>, LookupError>
  {
    if a.Err? then a else if b.Err? then b else Ok(a.value + b.value)
  }

  // What the volume is charged beyond its storage.
  function Extras(v: Volume, p: VolumePrices): Result<seq<Line>, LookupError> {
    if v.volumeType == "gp3" then
      Join(Extra(Gp3Iops, Max(OrZero(v.iops) - 3000, 0), IopsMonth, p.iops, true),
           Extra(Gp3Throughput, Max(OrZero(v.throughput) - 125, 0), MibpsMonth, p.throughput, true))
    else if v.volumeType == "io1" then Extra(Io1Iops, OrZero(v.iops), IopsMonth, p.iops, false)
    else if v.volumeType == "io2" then
      if p.tiers != [] then Ok(TierLines(Sorted(p.tiers, BY_BEGIN), OrZero(v.iops), 1))
      else Extra(Io2Iops, OrZero(v.iops), IopsMonth, p.iops, false)
    else Ok([])
  }

  function Priced(lines: seq<Line>, notes: seq<Note>): Estimate {
    Estimate(SumCost(lines), lines, notes)
  }

  function VolumeEstimate(v: Volume, prices: UnitPrices): Result<Estimate, LookupError> {
    if v.volumeType !in prices.volumes then Err(UnknownVolumeType(v.volumeType))
    else
      var p := prices.volumes[v.volumeType];
      var storage := MakeLine(StorageOf(v.volumeType, v.size), v.size, GibMonth, p.storage);
      match Extras(v, p)
      case Err(e) => Err(e)
      case Ok(extras) =>
        Ok(Priced([storage] + extras, if v.volumeType == "standard" then [MagneticExcluded] else []))
  }

  method AddUp(lines: seq<Line>) returns (total: real)
    ensures total == SumCost(lines)
  {
    total := 0.0;
    for i := 0 to |lines|
      invariant total == SumCost(lines[..i])
    {
      assert lines[..i + 1][..i] == lines[..i];
      total := total + lines[i].cost;
    }
    assert lines[..|lines|] == lines;
  }

  method AppendTiers(lines: seq<Line>, tiers: seq<Tier>, provisioned: int)
    returns (extended: seq<Line>)
    ensures extended == lines + TierLines(tiers, provisioned, 1)
  {
    extended := lines;
    for i := 0 to |tiers|
      invariant extended + TierLines(tiers[i..], provisioned, i + 1)
             == lines + TierLines(tiers, provisioned, 1)
    {
      ghost var before := extended;
      assert tiers[i..][1..] == tiers[i + 1..];
      var share := Share(tiers[i], provisioned);
      if share != 0 {
        extended := extended + [MakeLine(Io2Tier(i + 1), share, IopsMonth, tiers[i].price)];
      }
      assert extended + TierLines(tiers[i + 1..], provisioned, i + 2)
          == before + TierLines(tiers[i..], provisioned, i + 1);
    }
    assert extended + [] == extended;
  }

  /** The monthly estimate of one volume. */
  method CalculateVolume(v: Volume, prices: UnitPrices) returns (r: Result<Estimate, LookupError>)
    ensures r == VolumeEstimate(v, prices)
  {
    hide Cost, Sorted, TierLines, SumCost, Max;
    if v.volumeType !in prices.volumes {
      return Err(UnknownVolumeType(v.volumeType));
    }
    var p := prices.volumes[v.volumeType];
    ghost var storage := MakeLine(StorageOf(v.volumeType, v.size), v.size, GibMonth, p.storage);
    ghost var extras := Extras(v, p);
    var lines := [MakeLine(StorageOf(v.volumeType, v.size), v.size, GibMonth, p.storage)];
    var notes: seq<Note> := [];
    if v.volumeType == "gp3" {
      var iops := Max(OrZero(v.iops) - 3000, 0);
      var throughput := Max(OrZero(v.throughput) - 125, 0);
      if iops != 0 {
        if p.iops.None? {
          return Err(MissingPrice(Gp3Iops));
        }
        lines := lines + [MakeLine(Gp3Iops, iops, IopsMonth, p.iops.value)];
      }
      if throughput != 0 {
        if p.throughput.None? {
          return Err(MissingPrice(Gp3Throughput));
        }
        lines := lines + [MakeLine(Gp3Throughput, throughput, MibpsMonth, p.throughput.value)];
      }
      assert extras.Ok? && lines == [storage] + extras.value;
    } else if v.volumeType == "io1" {
      if p.iops.None? {
        return Err(MissingPrice(Io1Iops));
      }
      lines := lines + [MakeLine(Io1Iops, OrZero(v.iops), IopsMonth, p.iops.value)];
    } else if v.volumeType == "io2" {
      var provisioned := OrZero(v.iops);
      if p.tiers != [] {
        lines := AppendTiers(lines, Sorted(p.tiers, BY_BEGIN), provisioned);
      } else {
        if p.iops.None? {
          return Err(MissingPrice(Io2Iops));
        }
        lines := lines + [MakeLine(Io2Iops, provisioned, IopsMonth, p.iops.value)];
      }
    }
    if v.volumeType == "standard" {
      notes := [MagneticExcluded];
    }
    assert extras.Ok? && lines == [storage] + extras.value;
    var total := AddUp(lines);
    r := Ok(Estimate(total, lines, notes));
  }

  // ---- any request ------------------------------------------------------------------------

  function VolumesEstimate(volumes: seq<Volume>, prices: UnitPrices): Result<Estimate, LookupError> {
    if |volumes| == 0 then Ok(Estimate(0.0, [], []))
    else
      match VolumesEstimate(volumes[..|volumes| - 1], prices)
      case Err(e) => Err(e)
      case Ok(before) =>
        match VolumeEstimate(volumes[|volumes| - 1], prices)
        case Err(e) => Err(e)
        case Ok(last) =>
          Ok(Estimate(before.amount + last.amount, before.lines + last.lines,
                      before.notes + last.notes))
  }

  function SingleLine(item: Label, quantity: int, unit: Unit, price: Option<real>,
                      notes: seq<Note>): Result<Estimate, LookupError>
  {
    if price.None? then Err(MissingPrice(item))
    else
      var line := MakeLine(item, quantity, unit, price.value);
      Ok(Estimate(line.cost, [line], notes))
  }

  function StoppedEstimate(volumes: seq<Volume>, addresses: int, prices: UnitPrices)
    : Result<Estimate, LookupError>
  {
    match VolumesEstimate(volumes, prices)
    case Err(e) => Err(e)
    case Ok(sum) =>
      if addresses == 0 then Ok(sum.(notes := sum.notes + [ComputeNotBilled]))
      else if prices.ipv4Hourly.None? then Err(MissingPrice(Addresses))
      else
        var line := MakeLine(Addresses, addresses * HOURS, Hour, prices.ipv4Hourly.value);
        Ok(Estimate(sum.amount + line.cost, sum.lines + [line], sum.notes + [ComputeNotBilled]))
  }

  function EstimateOf(request: Request, prices: UnitPrices): Result<Estimate, LookupError> {
    match request
    case Ebs(volume) => VolumeEstimate(volume, prices)
    case Address(_) => SingleLine(OneAddress, HOURS, Hour, prices.ipv4Hourly, [])
    case Snapshot(_, size, tier) =>
      SingleLine(SnapshotBound(tier, size), size, GibMonth,
                 if tier == "archive" then prices.snapshotArchive else prices.snapshotStandard,
                 [SnapshotsIncremental])
    case Stopped(_, volumes, addresses) => StoppedEstimate(volumes, addresses, prices)
  }

  /** The monthly estimate of any request. */
  method Calculate(request: Request, prices: UnitPrices) returns (r: Result<Estimate, LookupError>)
    ensures r == EstimateOf(request, prices)
  {
    match request {
      case Ebs(volume) =>
        r := CalculateVolume(volume, prices);
      case Address(_) =>
        r := SingleLine(OneAddress, HOURS, Hour, prices.ipv4Hourly, []);
      case Snapshot(_, size, tier) =>
        var price := if tier == "archive" then prices.snapshotArchive else prices.snapshotStandard;
        r := SingleLine(SnapshotBound(tier, size), size, GibMonth, price, [SnapshotsIncremental]);
      case Stopped(_, volumes, addresses) =>
        r := CalculateStopped(volumes, addresses, prices);
    }
  }

  method CalculateStopped(volumes: seq<Volume>, addresses: int, prices: UnitPrices)
    returns (r: Result<Estimate, LookupError>)
    ensures r == StoppedEstimate(volumes, addresses, prices)
  {
    hide VolumeEstimate;
    var total := 0.0;
    var lines: seq<Line> := [];
    var notes: seq<Note> := [];
    for i := 0 to |volumes|
      invariant VolumesEstimate(volumes[..i], prices) == Ok(Estimate(total, lines, notes))
    {
      assert volumes[..i + 1][..i] == volumes[..i];
      var volume := CalculateVolume(volumes[i], prices);
      if volume.Err? {
        FailsEarly(volumes, i, prices);
        return Err(volume.error);
      }
      total := total + volume.value.amount;
      lines := lines + volume.value.lines;
      notes := notes + volume.value.notes;
    }
    assert volumes[..|volumes|] == volumes;
    if addresses != 0 {
      if prices.ipv4Hourly.None? {
        return Err(MissingPrice(Addresses));
      }
      var line := MakeLine(Addresses, addresses * HOURS, Hour, prices.ipv4Hourly.value);
      total := total + line.cost;
      lines := lines + [line];
    }
    notes := notes + [ComputeNotBilled];
    r := Ok(Estimate(total, lines, notes));
  }

  // The first volume that cannot be priced decides the error.
  lemma {:induction false} FailsEarly(volumes: seq<Volume>, i: nat, prices: UnitPrices)
    requires i < |volumes| && VolumesEstimate(volumes[..i + 1], prices).Err?
    ensures VolumesEstimate(volumes, prices) == VolumesEstimate(volumes[..i + 1], prices)
    decreases |volumes|
  {
    hide VolumeEstimate;
    if i + 1 < |volumes| {
      var n := |volumes| - 1;
      assert volumes[..n][..i + 1] == volumes[..i + 1];
      FailsEarly(volumes[..n], i, prices);
    } else {
      assert volumes[..i + 1] == volumes;
    }
  }

  // ---- the algebra of estimates -----------------------------------------------------------

  lemma {:induction false} VolumesAddUp(volumes: seq<Volume>, prices: UnitPrices)
    requires VolumesEstimate(volumes, prices).Ok?
    ensures var e := VolumesEstimate(volumes, prices).value; e.amount == SumCost(e.lines)
  {
    if |volumes| > 0 {
      var n := |volumes| - 1;
      VolumesAddUp(volumes[..n], prices);
      SumCostAppend(VolumesEstimate(volumes[..n], prices).value.lines,
                    VolumeEstimate(volumes[n], prices).value.lines);
    }
  }

  /** The amount of every estimate is the sum of its line items. */
  lemma {:induction false} AmountIsSumOfLines(request: Request, prices: UnitPrices)
    requires EstimateOf(request, prices).Ok?
    ensures var e := EstimateOf(request, prices).value; e.amount == SumCost(e.lines)
  {
    var e := EstimateOf(request, prices).value;
    match request
    case Ebs(_) =>
    case Address(_) =>
      assert e.lines[..0] == [];
    case Snapshot(_, _, _) =>
      assert e.lines[..0] == [];
    case Stopped(_, volumes, addresses) =>
      VolumesAddUp(volumes, prices);
      var sum := VolumesEstimate(volumes, prices).value;
      if addresses != 0 {
        var line := [e.lines[|e.lines| - 1]];
        assert line[..0] == [];
        SumCostAppend(sum.lines, line);
      }
  }

  function AmountOf(r: Result<Estimate, LookupError>): real
    requires r.Ok?
  {
    r.value.amount
  }

  /** Volumes one after the other cost what they cost apart, and can be priced when both parts can. */
  lemma {:induction false} VolumesSplit(a: seq<Volume>, b: seq<Volume>, prices: UnitPrices)
    ensures VolumesEstimate(a + b, prices).Ok?
       <==> VolumesEstimate(a, prices).Ok? && VolumesEstimate(b, prices).Ok?
    ensures VolumesEstimate(a + b, prices).Ok? ==>
              AmountOf(VolumesEstimate(a + b, prices))
              == AmountOf(VolumesEstimate(a, prices)) + AmountOf(VolumesEstimate(b, prices))
  {
    hide VolumeEstimate;
    if |b| == 0 {
      assert a + b == a;
    } else {
      assert (a + b)[..|a + b| - 1] == a + b[..|b| - 1];
      VolumesSplit(a, b[..|b| - 1], prices);
    }
  }

  function AddressCost(addresses: int, prices: UnitPrices): real {
    if prices.ipv4Hourly.None? then 0.0 else Cost(addresses * HOURS, prices.ipv4Hourly.value)
  }

  // Exactly when a stopped instance can be priced, and what it then costs.
  lemma StoppedIsItsParts(volumes: seq<Volume>, addresses: int, prices: UnitPrices)
    ensures var r := StoppedEstimate(volumes, addresses, prices);
            && (r.Ok? <==> VolumesEstimate(volumes, prices).Ok?
                           && (addresses == 0 || prices.ipv4Hourly.Some?))
            && (r.Ok? ==> AmountOf(r) == AmountOf(VolumesEstimate(volumes, prices))
                                         + AddressCost(addresses, prices))
  {
    hide VolumesEstimate;
    assert addresses == 0 ==> (addresses * HOURS) as real == 0.0;
  }

  lemma CostIsAdditive(a: int, b: int, price: real)
    ensures Cost(a + b, price) == Cost(a, price) + Cost(b, price)
    ensures Cost(0, price) == 0.0
  {
    assert (a + b) as real * price == a as real * price + b as real * price;
  }

  /** Stopped instances: the amount is additive over the volume lists and over the address counts. */
  lemma StoppedIsAdditive(a: seq<Volume>, b: seq<Volume>, m: int, n: int, prices: UnitPrices)
    requires StoppedEstimate(a, m, prices).Ok? && StoppedEstimate(b, n, prices).Ok?
    ensures StoppedEstimate(a + b, m + n, prices).Ok?
    ensures AmountOf(StoppedEstimate(a + b, m + n, prices))
         == AmountOf(StoppedEstimate(a, m, prices)) + AmountOf(StoppedEstimate(b, n, prices))
  {
    hide VolumesEstimate, StoppedEstimate;
    VolumesSplit(a, b, prices);
    StoppedIsItsParts(a, m, prices);
    StoppedIsItsParts(b, n, prices);
    StoppedIsItsParts(a + b, m + n, prices);
    if prices.ipv4Hourly.Some? {
      CostIsAdditive(m * HOURS, n * HOURS, prices.ipv4Hourly.value);
    }
  }

  function EachVolume(volumes: seq<Volume>, prices: UnitPrices): real
    requires forall v :: v in volumes ==> VolumeEstimate(v, prices).Ok?
  {
    if |volumes| == 0 then 0.0
    else EachVolume(volumes[..|volumes| - 1], prices)
         + AmountOf(VolumeEstimate(volumes[|volumes| - 1], prices))
  }

  lemma {:induction false} VolumesAreEach(volumes: seq<Volume>, prices: UnitPrices)
    ensures VolumesEstimate(volumes, prices).Ok?
       <==> forall v :: v in volumes ==> VolumeEstimate(v, prices).Ok?
    ensures VolumesEstimate(volumes, prices).Ok? ==>
              AmountOf(VolumesEstimate(volumes, prices)) == EachVolume(volumes, prices)
  {
    hide VolumeEstimate;
    if |volumes| > 0 {
      var n := |volumes| - 1;
      VolumesAreEach(volumes[..n], prices);
      assert volumes == volumes[..n] + [volumes[n]];
    }
  }

  /** A stopped instance costs what its volumes cost on their own plus one Elastic IP estimate for
      each of its addresses, if it has any; with addresses, that estimate exists. */
  lemma StoppedIsSumOfEstimates(region: string, volumes: seq<Volume>, addresses: int,
                                prices: UnitPrices)
    requires EstimateOf(Stopped(region, volumes, addresses), prices).Ok?
    ensures forall v :: v in volumes ==> VolumeEstimate(v, prices).Ok?
    ensures addresses != 0 ==> EstimateOf(Address(region), prices).Ok?
    ensures AmountOf(EstimateOf(Stopped(region, volumes, addresses), prices))
         == EachVolume(volumes, prices)
            + if addresses == 0 then 0.0
              else addresses as real * AmountOf(EstimateOf(Address(region), prices))
  {
    hide VolumesEstimate, VolumeEstimate, EachVolume;
    VolumesAreEach(volumes, prices);
    StoppedIsItsParts(volumes, addresses, prices);
    if addresses == 0 {
      assert prices.ipv4Hourly.Some? ==> Cost(0, prices.ipv4Hourly.value) == 0.0;
    } else {
      var p := prices.ipv4Hourly.value;
      assert (addresses * HOURS) as real == addresses as real * HOURS as real;
      assert (addresses as real * HOURS as real) * p == addresses as real * (HOURS as real * p);
    }
  }

  // ---- the tariff in plain numbers --------------------------------------------------------

  // So much of a quantity as lies above what is included.
  function Above(x: Option<int>, included: int): (r: int)
    ensures r > 0 <==> x.Some? && x.value > included
    ensures r > 0 ==> included + r == x.value
    ensures r >= 0
  {
    if x.Some? && x.value > included then x.value - included else 0
  }

  /** A gp3 volume is charged for its storage, its IOPS above 3000 and its throughput above 125, and
      cannot be priced exactly when one of the latter is charged and has no price. */
  lemma Gp3Exactly(v: Volume, prices: UnitPrices)
    requires v.volumeType == "gp3" && v.volumeType in prices.volumes
    ensures var r, p := VolumeEstimate(v, prices), prices.volumes[v.volumeType];
            var iops, throughput := Above(v.iops, 3000), Above(v.throughput, 125);
            && (r.Ok? <==> (iops > 0 ==> p.iops.Some?) && (throughput > 0 ==> p.throughput.Some?))
            && (r.Ok? ==>
                  && r.value.notes == []
                  && AmountOf(r)
                     == v.size as real * p.storage
                        + (if iops > 0 then iops as real * p.iops.value else 0.0)
                        + if throughput > 0 then throughput as real * p.throughput.value else 0.0)
  {
    var p := prices.volumes[v.volumeType];
    assert Max(OrZero(v.iops) - 3000, 0) == Above(v.iops, 3000);
    assert Max(OrZero(v.throughput) - 125, 0) == Above(v.throughput, 125);
    hide Max, OrZero, Above, SumCost;
    if VolumeEstimate(v, prices).Ok? {
      VolumeAmount(v, prices);
    }
  }

  /** An io1 volume, and an io2 volume without tiers, is charged for its storage and for every IOPS it
      has, and cannot be priced exactly when there is no price per IOPS, even with none provisioned. */
  lemma ProvisionedExactly(v: Volume, prices: UnitPrices)
    requires v.volumeType in prices.volumes
    requires v.volumeType == "io1"
             || (v.volumeType == "io2" && prices.volumes[v.volumeType].tiers == [])
    ensures var r, p := VolumeEstimate(v, prices), prices.volumes[v.volumeType];
            && (r.Ok? <==> p.iops.Some?)
            && (r.Ok? ==>
                  && r.value.notes == []
                  && AmountOf(r)
                     == v.size as real * p.storage
                        + if v.iops.Some? then v.iops.value as real * p.iops.value else 0.0)
  {
    hide SumCost;
    if VolumeEstimate(v, prices).Ok? {
      VolumeAmount(v, prices);
    }
  }

  /** An io2 volume with tiers is charged for its storage and, without parts below zero, for each IOPS
      what the tiers that contain it charge. */
  lemma TieredExactly(v: Volume, prices: UnitPrices)
    requires v.volumeType == "io2" && v.volumeType in prices.volumes
    requires prices.volumes[v.volumeType].tiers != []
    ensures var r, p := VolumeEstimate(v, prices), prices.volumes[v.volumeType];
            && r.Ok? && r.value.notes == []
            && (NoneBelowZero(p.tiers) && v.iops.Some? && v.iops.value >= 0 ==>
                  AmountOf(r) == v.size as real * p.storage
                                 + PerIops(Sorted(p.tiers, BY_BEGIN), v.iops.value))
  {
    var p := prices.volumes[v.volumeType];
    var sorted := Sorted(p.tiers, BY_BEGIN);
    hide Sorted, SumCost, TierLines;
    VolumeAmount(v, prices);
    SortedPermutes(p.tiers, BY_BEGIN);
    if NoneBelowZero(p.tiers) && v.iops.Some? && v.iops.value >= 0 {
      forall t | t in sorted
        ensures StartsAboveZero(t)
      {
        assert t in multiset(sorted) && t in p.tiers;
      }
      NothingForNothing(sorted);
      ChargeIsPerIops(sorted, v.iops.value);
    }
  }

  /** Any other known type costs its storage alone, and the magnetic one says so. */
  lemma PlainExactly(v: Volume, prices: UnitPrices)
    requires v.volumeType in prices.volumes
    requires v.volumeType != "gp3" && v.volumeType != "io1" && v.volumeType != "io2"
    ensures var r := VolumeEstimate(v, prices);
            && r.Ok? && AmountOf(r) == v.size as real * prices.volumes[v.volumeType].storage
            && r.value.notes == if v.volumeType == "standard" then [MagneticExcluded] else []
  {
    hide SumCost;
    VolumeAmount(v, prices);
  }

  /** An address costs 730 hours; a snapshot its size at the price of its tier, with a note; each is
      missed exactly without that price. */
  lemma SinglesExactly(region: string, size: int, tier: string, prices: UnitPrices)
    ensures var r := EstimateOf(Address(region), prices);
            && (r.Ok? <==> prices.ipv4Hourly.Some?)
            && (r.Ok? ==> AmountOf(r) == 730.0 * prices.ipv4Hourly.value && r.value.notes == [])
    ensures var r := EstimateOf(Snapshot(region, size, tier), prices);
            var price := if tier == "archive" then prices.snapshotArchive else prices.snapshotStandard;
            && (r.Ok? <==> price.Some?)
            && (r.Ok? ==> AmountOf(r) == size as real * price.value
                          && r.value.notes == [SnapshotsIncremental])
  {
  }

  ghost predicate CostsItsQuantity(line: Line) {
    line.cost == line.quantity as real * line.unitPrice
  }

  lemma {:induction false} TierLinesCostTheirs(tiers: seq<Tier>, provisioned: int, index: nat)
    ensures forall l :: l in TierLines(tiers, provisioned, index) ==> CostsItsQuantity(l)
  {
    hide Share;
    if |tiers| > 0 {
      TierLinesCostTheirs(tiers[1..], provisioned, index + 1);
    }
  }

  lemma ExtraCostsItsQuantity(item: Label, quantity: int, unit: Unit, price: Option<real>,
                              optional: bool)
    ensures var r := Extra(item, quantity, unit, price, optional);
            r.Ok? ==> forall l :: l in r.value ==> CostsItsQuantity(l)
  {
  }

  lemma ExtrasCostTheirs(v: Volume, p: VolumePrices)
    requires Extras(v, p).Ok?
    ensures forall l :: l in Extras(v, p).value ==> CostsItsQuantity(l)
  {
    hide Max, OrZero, TierLines, Sorted, Extra, CostsItsQuantity;
    if v.volumeType == "gp3" {
      ExtraCostsItsQuantity(Gp3Iops, Max(OrZero(v.iops) - 3000, 0), IopsMonth, p.iops, true);
      ExtraCostsItsQuantity(Gp3Throughput, Max(OrZero(v.throughput) - 125, 0), MibpsMonth,
                            p.throughput, true);
    } else if v.volumeType == "io1" {
      ExtraCostsItsQuantity(Io1Iops, OrZero(v.iops), IopsMonth, p.iops, false);
    } else if v.volumeType == "io2" {
      TierLinesCostTheirs(Sorted(p.tiers, BY_BEGIN), OrZero(v.iops), 1);
      ExtraCostsItsQuantity(Io2Iops, OrZero(v.iops), IopsMonth, p.iops, false);
    }
  }

  lemma VolumeLinesCostTheirs(v: Volume, prices: UnitPrices)
    requires VolumeEstimate(v, prices).Ok?
    ensures var lines := VolumeEstimate(v, prices).value.lines;
            && (forall l :: l in lines ==> CostsItsQuantity(l))
            && |lines| > 0 && lines[0].item == StorageOf(v.volumeType, v.size)
            && lines[0].quantity == v.size
            && lines[0].unitPrice == prices.volumes[v.volumeType].storage
  {
    hide SumCost, Extras;
    ExtrasCostTheirs(v, prices.volumes[v.volumeType]);
  }

  lemma {:induction false} VolumesLinesCostTheirs(volumes: seq<Volume>, prices: UnitPrices)
    requires VolumesEstimate(volumes, prices).Ok?
    ensures forall l :: l in VolumesEstimate(volumes, prices).value.lines ==> CostsItsQuantity(l)
  {
    hide VolumeEstimate, CostsItsQuantity;
    if |volumes| > 0 {
      var n := |volumes| - 1;
      VolumesLinesCostTheirs(volumes[..n], prices);
      VolumeLinesCostTheirs(volumes[n], prices);
    }
  }

  /** Every line of every estimate costs its quantity at its unit price. */
  lemma LinesCostTheirQuantity(request: Request, prices: UnitPrices)
    requires EstimateOf(request, prices).Ok?
    ensures forall l :: l in EstimateOf(request, prices).value.lines ==> CostsItsQuantity(l)
  {
    hide VolumeEstimate, VolumesEstimate;
    match request
    case Ebs(v) => VolumeLinesCostTheirs(v, prices);
    case Address(_) =>
    case Snapshot(_, _, _) =>
    case Stopped(_, volumes, _) => VolumesLinesCostTheirs(volumes, prices);
  }

  // ---- monotonicity -----------------------------------------------------------------------

  ghost predicate NotNegative(p: Option<real>) {
    p.Some? ==> p.value >= 0.0
  }

  ghost predicate NoNegativePrices(p: VolumePrices) {
    p.storage >= 0.0 && NotNegative(p.iops) && NotNegative(p.throughput) && NoNegativePrice(p.tiers)
  }

  ghost predicate AtMost(v: Volume, w: Volume) {
    && v.volumeType == w.volumeType && v.size <= w.size
    && OrZero(v.iops) <= OrZero(w.iops) && OrZero(v.throughput) <= OrZero(w.throughput)
  }

  // What the extras cost, by volume type.
  function ExtrasCost(v: Volume, p: VolumePrices): real {
    var iops := if p.iops.Some? then p.iops.value else 0.0;
    var throughput := if p.throughput.Some? then p.throughput.value else 0.0;
    if v.volumeType == "gp3" then
      Cost(Max(OrZero(v.iops) - 3000, 0), iops)
      + Cost(Max(OrZero(v.throughput) - 125, 0), throughput)
    else if v.volumeType == "io1" || (v.volumeType == "io2" && p.tiers == []) then
      Cost(OrZero(v.iops), iops)
    else if v.volumeType == "io2" then Charge(Sorted(p.tiers, BY_BEGIN), OrZero(v.iops))
    else 0.0
  }

  lemma OneLine(line: Line)
    ensures SumCost([line]) == line.cost
  {
    assert [line][..0] == [];
  }

  lemma ExtraCost(item: Label, quantity: int, unit: Unit, price: Option<real>, optional: bool)
    requires Extra(item, quantity, unit, price, optional).Ok?
    ensures SumCost(Extra(item, quantity, unit, price, optional).value)
         == Cost(quantity, if price.Some? then price.value else 0.0)
  {
    NoLines();
    if price.Some? {
      OneLine(MakeLine(item, quantity, unit, price.value));
    }
  }

  /** A volume's amount in closed form: its storage, and by type the IOPS and throughput above what is
      included, all provisioned IOPS, or the tiers' charge. */
  lemma VolumeAmount(v: Volume, prices: UnitPrices)
    requires VolumeEstimate(v, prices).Ok?
    ensures var p := prices.volumes[v.volumeType];
            AmountOf(VolumeEstimate(v, prices)) == Cost(v.size, p.storage) + ExtrasCost(v, p)
  {
    hide Cost, Sorted, Charge, TierLines, SumCost, Max;
    var p := prices.volumes[v.volumeType];
    var storage := MakeLine(StorageOf(v.volumeType, v.size), v.size, GibMonth, p.storage);
    var extras := Extras(v, p).value;
    OneLine(storage);
    NoLines();
    ExtrasAmount(v, p);
    SumCostAppend([storage], extras);
  }

  lemma NoLines()
    ensures SumCost([]) == 0.0
  {
  }

  lemma ExtrasAmount(v: Volume, p: VolumePrices)
    requires Extras(v, p).Ok?
    ensures SumCost(Extras(v, p).value) == ExtrasCost(v, p)
  {
    hide Cost, Sorted, Charge, TierLines, SumCost, Max, Extra;
    NoLines();
    if v.volumeType == "gp3" {
      var iops := Extra(Gp3Iops, Max(OrZero(v.iops) - 3000, 0), IopsMonth, p.iops, true);
      var throughput :=
        Extra(Gp3Throughput, Max(OrZero(v.throughput) - 125, 0), MibpsMonth, p.throughput, true);
      ExtraCost(Gp3Iops, Max(OrZero(v.iops) - 3000, 0), IopsMonth, p.iops, true);
      ExtraCost(Gp3Throughput, Max(OrZero(v.throughput) - 125, 0), MibpsMonth, p.throughput, true);
      SumCostAppend(iops.value, throughput.value);
    } else if v.volumeType == "io1" {
      ExtraCost(Io1Iops, OrZero(v.iops), IopsMonth, p.iops, false);
    } else if v.volumeType == "io2" {
      if p.tiers != [] {
        TierLinesCost(Sorted(p.tiers, BY_BEGIN), OrZero(v.iops), 1);
      } else {
        ExtraCost(Io2Iops, OrZero(v.iops), IopsMonth, p.iops, false);
      }
    }
  }

  /** Without negative prices a volume's amount never falls when size, IOPS or throughput rise. */
  lemma VolumeIsMonotone(v: Volume, w: Volume, prices: UnitPrices)
    requires AtMost(v, w) && VolumeEstimate(v, prices).Ok? && VolumeEstimate(w, prices).Ok?
    requires NoNegativePrices(prices.volumes[v.volumeType])
    ensures AmountOf(VolumeEstimate(v, prices)) <= AmountOf(VolumeEstimate(w, prices))
  {
    var p := prices.volumes[v.volumeType];
    VolumeAmount(v, prices);
    VolumeAmount(w, prices);
    ExtrasAreMonotone(v, w, p);
    TimesIsMonotone(v.size, w.size, p.storage);
  }

  lemma ExtrasAreMonotone(v: Volume, w: Volume, p: VolumePrices)
    requires AtMost(v, w) && NoNegativePrices(p)
    ensures ExtrasCost(v, p) <= ExtrasCost(w, p)
  {
    hide Cost, Sorted, Charge;
    var iops := if p.iops.Some? then p.iops.value else 0.0;
    var throughput := if p.throughput.Some? then p.throughput.value else 0.0;
    if v.volumeType == "gp3" {
      TimesIsMonotone(Max(OrZero(v.iops) - 3000, 0), Max(OrZero(w.iops) - 3000, 0), iops);
      TimesIsMonotone(Max(OrZero(v.throughput) - 125, 0), Max(OrZero(w.throughput) - 125, 0),
                      throughput);
    } else if v.volumeType == "io1" || (v.volumeType == "io2" && p.tiers == []) {
      TimesIsMonotone(OrZero(v.iops), OrZero(w.iops), iops);
    } else if v.volumeType == "io2" {
      var sorted := Sorted(p.tiers, BY_BEGIN);
      SortedPermutes(p.tiers, BY_BEGIN);
      forall t | t in sorted
        ensures t.price >= 0.0
      {
        assert t in multiset(sorted);
      }
      ChargeIsMonotone(sorted, OrZero(v.iops), OrZero(w.iops));
    }
  }

  /** Without negative prices an estimate never falls when a snapshot grows or when a stopped instance
      has larger volumes or more addresses. */
  lemma SnapshotIsMonotone(region: string, tier: string, less: int, more: int, prices: UnitPrices)
    requires less <= more
    requires NotNegative(prices.snapshotArchive) && NotNegative(prices.snapshotStandard)
    ensures var a := EstimateOf(Snapshot(region, less, tier), prices);
            var b := EstimateOf(Snapshot(region, more, tier), prices);
            (a.Ok? <==> b.Ok?) && (a.Ok? ==> AmountOf(a) <= AmountOf(b))
  {
    var price := if tier == "archive" then prices.snapshotArchive else prices.snapshotStandard;
    if price.Some? {
      TimesIsMonotone(less, more, price.value);
    }
  }

  lemma {:induction false} VolumesAreMonotone(a: seq<Volume>, b: seq<Volume>, prices: UnitPrices)
    requires |a| == |b| && forall i :: 0 <= i < |a| ==> AtMost(a[i], b[i])
    requires VolumesEstimate(a, prices).Ok? && VolumesEstimate(b, prices).Ok?
    requires forall t :: t in prices.volumes ==> NoNegativePrices(prices.volumes[t])
    ensures AmountOf(VolumesEstimate(a, prices)) <= AmountOf(VolumesEstimate(b, prices))
  {
    if |a| > 0 {
      var n := |a| - 1;
      VolumesAreMonotone(a[..n], b[..n], prices);
      VolumeIsMonotone(a[n], b[n], prices);
    }
  }

  lemma StoppedIsMonotone(a: seq<Volume>, b: seq<Volume>, m: int, n: int, prices: UnitPrices)
    requires |a| == |b| && m <= n && forall i :: 0 <= i < |a| ==> AtMost(a[i], b[i])
    requires StoppedEstimate(a, m, prices).Ok? && StoppedEstimate(b, n, prices).Ok?
    requires NotNegative(prices.ipv4Hourly)
    requires forall t :: t in prices.volumes ==> NoNegativePrices(prices.volumes[t])
    ensures AmountOf(StoppedEstimate(a, m, prices)) <= AmountOf(StoppedEstimate(b, n, prices))
  {
    hide VolumesEstimate, StoppedEstimate;
    StoppedIsItsParts(a, m, prices);
    StoppedIsItsParts(b, n, prices);
    VolumesAreMonotone(a, b, prices);
    if prices.ipv4Hourly.Some? {
      TimesIsMonotone(m * HOURS, n * HOURS, prices.ipv4Hourly.value);
    }
  }

  // ---- the fallback table -----------------------------------------------------------------

  // What the table lists for a volume type; io2 lists three tier prices.
  datatype Listed = Listed(
    storage: Decimal, iops: Option<Decimal>, throughput: Option<Decimal>,
    tierPrices: Option<(Decimal, Decimal, Decimal)>)

  const VOLUME_TYPES: seq<string> := ["gp3", "gp2", "io1", "io2", "st1", "sc1", "standard"]

  datatype ListedRegion = ListedRegion(
    volumes: map<string, Listed>, snapshotStandard: Decimal, snapshotArchive: Decimal,
    ipv4Hourly: Decimal)

  function FallbackTiers(listed: Listed): seq<Tier> {
    match listed.tierPrices
    case None => []
    case Some((first, second, third)) =>
      [Tier(0, Some(32000), first), Tier(32000, Some(64000), second), Tier(64000, None, third)]
  }

  function FallbackPrices(region: ListedRegion): UnitPrices {
    UnitPrices(
      map t | t in region.volumes ::
        VolumePrices(region.volumes[t].storage, region.volumes[t].iops,
                     region.volumes[t].throughput, FallbackTiers(region.volumes[t])),
      Some(region.snapshotStandard), Some(region.snapshotArchive), Some(region.ipv4Hourly))
  }

  // A table that lists the seven volume types with the prices each of them needs.
  ghost predicate WellListed(region: ListedRegion) {
    && (forall t :: t in region.volumes <==> t in VOLUME_TYPES)
    && region.volumes["gp3"].iops.Some? && region.volumes["gp3"].throughput.Some?
    && region.volumes["io1"].iops.Some? && region.volumes["io2"].tierPrices.Some?
  }

  /** The fallback tiers are progressive for any three prices. */
  lemma FallbackTiersAreProgressive(listed: Listed)
    requires listed.tierPrices.Some?
    ensures Progressive(FallbackTiers(listed))
  {
    var tiers := FallbackTiers(listed);
    assert tiers[1..][1..] == [tiers[2]];
    assert Contiguous(tiers[1..][1..], 64000);
    assert tiers[1..][0] == tiers[1];
    assert Contiguous(tiers[1..], 32000);
    assert Contiguous(tiers, 0);
  }

  /** Of the fallback tiers, the first listed price is that of each IOPS up to 32,000, the second of each
      up to 64,000 and the third of each beyond. */
  lemma FallbackTiersExactly(listed: Listed, n: nat)
    requires listed.tierPrices.Some?
    ensures var (first, second, third) := listed.tierPrices.value;
            PriceOf(FallbackTiers(listed), n)
            == if n < 32_000 then first else if n < 64_000 then second else third
  {
    var tiers := FallbackTiers(listed);
    assert tiers[1..] == [tiers[1], tiers[2]] && tiers[1..][1..] == [tiers[2]];
    assert [tiers[2]][1..] == [];
    assert PriceOf([tiers[2]], n) == if 64_000 <= n then tiers[2].price else 0.0;
    assert PriceOf(tiers[1..], n)
        == (if Contains(tiers[1], n) then tiers[1].price else 0.0) + PriceOf([tiers[2]], n);
  }

  /** With the fallback table every price is the listed one of its own kind. */
  lemma FallbackIsListed(region: ListedRegion, place: string, size: int, tier: string)
    ensures var prices := FallbackPrices(region);
            && (forall t :: t in region.volumes ==>
                  && t in prices.volumes && prices.volumes[t].storage == region.volumes[t].storage
                  && prices.volumes[t].iops == region.volumes[t].iops
                  && prices.volumes[t].throughput == region.volumes[t].throughput)
            && var address, snapshot := EstimateOf(Address(place), prices),
                                        EstimateOf(Snapshot(place, size, tier), prices);
            && address.Ok? && AmountOf(address) == 730.0 * region.ipv4Hourly
            && snapshot.Ok?
            && AmountOf(snapshot)
               == size as real * if tier == "archive" then region.snapshotArchive
                                 else region.snapshotStandard
  {
    SinglesExactly(place, size, tier, FallbackPrices(region));
  }

  ghost predicate TypesListed(request: Request) {
    match request
    case Ebs(v) => v.volumeType in VOLUME_TYPES
    case Stopped(_, volumes, _) => forall v :: v in volumes ==> v.volumeType in VOLUME_TYPES
    case _ => true
  }

  /** With the fallback table an estimate is missing exactly when a volume's type is not listed. */
  lemma FallbackNeverMisses(request: Request, region: ListedRegion)
    requires WellListed(region)
    ensures EstimateOf(request, FallbackPrices(region)).Ok? <==> TypesListed(request)
  {
    var prices := FallbackPrices(region);
    forall v: Volume
      ensures VolumeEstimate(v, prices).Ok? <==> v.volumeType in VOLUME_TYPES
    {
    }
    if request.Stopped? {
      VolumesAreEach(request.volumes, prices);
      StoppedIsItsParts(request.volumes, request.addresses, prices);
    }
  }
}
