/** Prices from the price list service: reading its documents, and loading what a request needs,
    which only part of the request decides. */
module PriceApi {
  import opened Domain
  import opened Sorting
  import opened Calculator
  import opened Decimals

  // ---- documents --------------------------------------------------------------------------

  datatype Bound = NoBound | Infinite | Number(n: int) | Unreadable

  // A price dimension; its price is missing when it cannot be read as a finite decimal.
  datatype Dimension = Dimension(unit: string, price: Option<Decimal>, begin: Bound, end: Bound)

  datatype Document = Document(usage: string, dimensions: seq<Dimension>)

  datatype Query = Query(
    service: string, region: string, family: string, volumeType: Option<string>)

  // What the price list answers at one moment; None is an error of the provider.
  type Catalog = Query -> Option<seq<Document>>

  predicate EndsWith(s: string, suffix: string) {
    |suffix| <= |s| && s[|s| - |suffix|..] == suffix
  }

  predicate Mentions(s: string, part: string) {
    exists i :: 0 <= i <= |s| && part <= s[i..]
  }

  type Priced = (string, Dimension)

  function Pairs(d: Document): seq<Priced> {
    seq(|d.dimensions|, i requires 0 <= i < |d.dimensions| => (d.usage, d.dimensions[i]))
  }

  // The dimensions in document order, each with the usage type of its document.
  function Flat(documents: seq<Document>): seq<Priced> {
    if |documents| == 0 then []
    else Flat(documents[..|documents| - 1]) + Pairs(documents[|documents| - 1])
  }

  predicate Qualifies(x: Priced, unit: string, suffix: string) {
    EndsWith(x.0, suffix) && x.1.unit == unit
  }

  // The first dimension with this unit in a document whose usage type ends like this.
  function First(flat: seq<Priced>, unit: string, suffix: string): (r: Option<Dimension>)
    ensures r.None? <==> forall i :: 0 <= i < |flat| ==> !Qualifies(flat[i], unit, suffix)
    ensures r.Some? ==>
              exists i :: 0 <= i < |flat| && flat[i].1 == r.value && Qualifies(flat[i], unit, suffix)
                          && forall k :: 0 <= k < i ==> !Qualifies(flat[k], unit, suffix)
  {
    if |flat| == 0 then None
    else
      var n := |flat| - 1;
      var earlier := First(flat[..n], unit, suffix);
      if earlier.Some? then earlier
      else if Qualifies(flat[n], unit, suffix) then Some(flat[n].1)
      else None
  }

  lemma {:induction false} FirstStays(flat: seq<Priced>, n: nat, unit: string, suffix: string)
    requires n <= |flat| && First(flat[..n], unit, suffix).Some?
    ensures First(flat, unit, suffix) == First(flat[..n], unit, suffix)
    decreases |flat|
  {
    if n < |flat| {
      assert flat[..|flat| - 1][..n] == flat[..n];
      FirstStays(flat[..|flat| - 1], n, unit, suffix);
    } else {
      assert flat[..n] == flat;
    }
  }

  function SinglePrice(documents: seq<Document>, unit: string, suffix: string): Option<Decimal> {
    var first := First(Flat(documents), unit, suffix);
    if first.None? then None else first.value.price
  }

  lemma {:induction false} FlatPrefix(documents: seq<Document>, i: nat)
    requires i <= |documents|
    ensures Flat(documents[..i]) <= Flat(documents)
    decreases |documents|
  {
    if i < |documents| {
      assert documents[..|documents| - 1][..i] == documents[..i];
      FlatPrefix(documents[..|documents| - 1], i);
    } else {
      assert documents[..i] == documents;
    }
  }

  lemma FlatNext(documents: seq<Document>, i: nat)
    requires i < |documents|
    ensures Flat(documents[..i + 1]) == Flat(documents[..i]) + Pairs(documents[i])
    ensures Flat(documents[..i]) + Pairs(documents[i])[..0] == Flat(documents[..i])
    ensures Pairs(documents[i])[..|documents[i].dimensions|] == Pairs(documents[i])
  {
    assert documents[..i + 1][..i] == documents[..i];
  }

  lemma FirstNext(seen: seq<Priced>, pairs: seq<Priced>, j: nat, unit: string, suffix: string)
    requires j < |pairs| && First(seen + pairs[..j], unit, suffix).None?
    ensures First(seen + pairs[..j + 1], unit, suffix)
         == if Qualifies(pairs[j], unit, suffix) then Some(pairs[j].1) else None
  {
    hide Qualifies;
    var next := seen + pairs[..j + 1];
    assert next[..|next| - 1] == seen + pairs[..j] && next[|next| - 1] == pairs[j];
  }

  lemma {:induction false} NoneHere(seen: seq<Priced>, d: Document, j: nat, unit: string,
                                    suffix: string)
    requires !EndsWith(d.usage, suffix) && First(seen, unit, suffix).None?
    requires j <= |d.dimensions|
    ensures First(seen + Pairs(d)[..j], unit, suffix).None?
  {
    if j == 0 {
      assert seen + Pairs(d)[..0] == seen;
    } else {
      NoneHere(seen, d, j - 1, unit, suffix);
      FirstNext(seen, Pairs(d), j - 1, unit, suffix);
    }
  }

  /** Looks through the documents for the price of a unit; None is a lookup error. */
  method FindSinglePrice(documents: seq<Document>, unit: string, suffix: string)
    returns (price: Option<Decimal>)
    ensures price == SinglePrice(documents, unit, suffix)
  {
    assert First([], unit, suffix).None?;
    hide EndsWith, First, Flat, Pairs;
    assert documents[..0] == [] && documents[..|documents|] == documents;
    NothingFlat();
    for i := 0 to |documents|
      invariant First(Flat(documents[..i]), unit, suffix).None?
    {
      var d := documents[i];
      ghost var seen := Flat(documents[..i]);
      FlatNext(documents, i);
      if !EndsWith(d.usage, suffix) {
        NoneHere(seen, d, |d.dimensions|, unit, suffix);
        continue;
      }
      PairsOf(d);
      for j := 0 to |d.dimensions|
        invariant First(seen + Pairs(d)[..j], unit, suffix).None?
      {
        FirstNext(seen, Pairs(d), j, unit, suffix);
        if d.dimensions[j].unit == unit {
          ghost var next := seen + Pairs(d)[..j + 1];
          FlatPrefix(documents, i + 1);
          assert Flat(documents)[..|next|] == next;
          FirstStays(Flat(documents), |next|, unit, suffix);
          return d.dimensions[j].price;
        }
      }
    }
    price := None;
  }

  lemma NothingFlat()
    ensures Flat([]) == []
  {
  }

  lemma PairsOf(d: Document)
    ensures |Pairs(d)| == |d.dimensions|
    ensures forall j :: 0 <= j < |d.dimensions| ==> Pairs(d)[j] == (d.usage, d.dimensions[j])
  {
  }

  // ---- the unit prices of one volume type -------------------------------------------------

  predicate ForIops(usage: string, d: Dimension) {
    d.unit == "IOPS-Mo" || (Mentions(usage, "VolumeP-IOPS") && d.unit != "MiBps-Mo")
  }

  predicate ForThroughput(usage: string, d: Dimension) {
    d.unit == "MiBps-Mo" || Mentions(usage, "VolumeP-Throughput")
  }

  function Strip(flat: seq<Priced>, keep: (string, Dimension) -> bool): seq<Dimension> {
    if |flat| == 0 then []
    else
      var n := |flat| - 1;
      Strip(flat[..n], keep) + if keep(flat[n].0, flat[n].1) then [flat[n].1] else []
  }

  lemma StripNext(seen: seq<Priced>, pairs: seq<Priced>, j: nat,
                  keep: (string, Dimension) -> bool)
    requires j < |pairs|
    ensures Strip(seen + pairs[..j + 1], keep)
         == Strip(seen + pairs[..j], keep)
            + if keep(pairs[j].0, pairs[j].1) then [pairs[j].1] else []
  {
    var next := seen + pairs[..j + 1];
    assert next[..|next| - 1] == seen + pairs[..j];
  }

  // The bounds of a tier: one that is absent or infinite reads as zero at the beginning.
  function TierOf(d: Dimension): Option<Tier> {
    if d.begin.Unreadable? || d.end.Unreadable? || d.price.None? then None
    else Some(Tier(if d.begin.Number? then d.begin.n else 0,
                   if d.end.Number? then Some(d.end.n) else None,
                   d.price.value))
  }

  function TiersOf(dimensions: seq<Dimension>): Option<seq<Tier>> {
    if |dimensions| == 0 then Some([])
    else
      var n := |dimensions| - 1;
      var before, last := TiersOf(dimensions[..n]), TierOf(dimensions[n]);
      if before.None? || last.None? then None else Some(before.value + [last.value])
  }

  lemma {:induction false} TiersOfEach(dimensions: seq<Dimension>)
    ensures TiersOf(dimensions).Some? <==> forall d :: d in dimensions ==> TierOf(d).Some?
    ensures TiersOf(dimensions).Some? ==>
              && |TiersOf(dimensions).value| == |dimensions|
              && forall i :: 0 <= i < |dimensions| ==>
                   TierOf(dimensions[i]) == Some(TiersOf(dimensions).value[i])
  {
    if |dimensions| > 0 {
      var n := |dimensions| - 1;
      TiersOfEach(dimensions[..n]);
      assert dimensions == dimensions[..n] + [dimensions[n]];
    }
  }

  function StorageQuery(region: string, volumeType: string): Query {
    Query("AmazonEC2", region, "Storage", Some(volumeType))
  }

  function OperationQuery(region: string, volumeType: string): Query {
    Query("AmazonEC2", region, "System Operation", Some(volumeType))
  }

  predicate HasExtras(volumeType: string) {
    volumeType == "gp3" || volumeType == "io1" || volumeType == "io2"
  }

  // What the operation documents add to the storage price; None is an error.
  function ExtraPrices(volumeType: string, storage: Decimal, iops: seq<Dimension>,
                       throughput: seq<Dimension>): Option<VolumePrices>
  {
    if iops == [] then None
    else if volumeType == "io2" then
      var tiers := TiersOf(iops);
      if tiers.None? then None
      else Some(VolumePrices(storage, None, None, Sorted(tiers.value, BY_BEGIN)))
    else if iops[0].price.None? then None
    else if volumeType == "gp3" then
      if throughput == [] || throughput[0].price.None? then None
      else Some(VolumePrices(storage, iops[0].price, throughput[0].price, []))
    else Some(VolumePrices(storage, iops[0].price, None, []))
  }

  function VolumeUnitPrices(catalog: Catalog, region: string, volumeType: string)
    : Option<VolumePrices>
  {
    var storageDocuments := catalog(StorageQuery(region, volumeType));
    if storageDocuments.None? then None
    else
      var storage := SinglePrice(storageDocuments.value, "GB-Mo", "");
      if storage.None? then None
      else if !HasExtras(volumeType) then Some(VolumePrices(storage.value, None, None, []))
      else
        var operations := catalog(OperationQuery(region, volumeType));
        if operations.None? then None
        else
          var flat := Flat(operations.value);
          ExtraPrices(volumeType, storage.value, Strip(flat, ForIops), Strip(flat, ForThroughput))
  }

  method ReadTiers(dimensions: seq<Dimension>) returns (r: Option<seq<Tier>>)
    ensures r == TiersOf(dimensions)
  {
    var tiers: seq<Tier> := [];
    for i := 0 to |dimensions|
      invariant TiersOf(dimensions[..i]) == Some(tiers)
    {
      assert dimensions[..i + 1][..i] == dimensions[..i];
      var tier := TierOf(dimensions[i]);
      if tier.None? {
        TiersOfEach(dimensions);
        return None;
      }
      tiers := tiers + [tier.value];
    }
    assert dimensions[..|dimensions|] == dimensions;
    r := Some(tiers);
  }

  method CollectDimensions(documents: seq<Document>)
    returns (iops: seq<Dimension>, throughput: seq<Dimension>)
    ensures iops == Strip(Flat(documents), ForIops)
    ensures throughput == Strip(Flat(documents), ForThroughput)
  {
    hide ForIops, ForThroughput, Flat, Pairs;
    assert documents[..0] == [] && documents[..|documents|] == documents;
    NothingFlat();
    iops, throughput := [], [];
    for i := 0 to |documents|
      invariant iops == Strip(Flat(documents[..i]), ForIops)
      invariant throughput == Strip(Flat(documents[..i]), ForThroughput)
    {
      hide Strip;
      var d := documents[i];
      ghost var seen := Flat(documents[..i]);
      FlatNext(documents, i);
      PairsOf(d);
      for j := 0 to |d.dimensions|
        invariant iops == Strip(seen + Pairs(d)[..j], ForIops)
        invariant throughput == Strip(seen + Pairs(d)[..j], ForThroughput)
      {
        StripNext(seen, Pairs(d), j, ForIops);
        StripNext(seen, Pairs(d), j, ForThroughput);
        if ForIops(d.usage, d.dimensions[j]) {
          iops := iops + [d.dimensions[j]];
        }
        if ForThroughput(d.usage, d.dimensions[j]) {
          throughput := throughput + [d.dimensions[j]];
        }
      }
    }
  }

  method LoadVolumePrices(catalog: Catalog, region: string, volumeType: string)
    returns (r: Option<VolumePrices>)
    ensures r == VolumeUnitPrices(catalog, region, volumeType)
  {
    var storageDocuments := catalog(StorageQuery(region, volumeType));
    if storageDocuments.None? {
      return None;
    }
    assert forall x: Priced :: EndsWith(x.0, "");
    var storage := FindSinglePrice(storageDocuments.value, "GB-Mo", "");
    if storage.None? {
      return None;
    }
    if !HasExtras(volumeType) {
      return Some(VolumePrices(storage.value, None, None, []));
    }
    var operations := catalog(OperationQuery(region, volumeType));
    if operations.None? {
      return None;
    }
    var iops, throughput := CollectDimensions(operations.value);
    if iops == [] {
      return None;
    }
    if volumeType == "io2" {
      var tiers := ReadTiers(iops);
      if tiers.None? {
        return None;
      }
      return Some(VolumePrices(storage.value, None, None, Sorted(tiers.value, BY_BEGIN)));
    }
    if iops[0].price.None? {
      return None;
    }
    if volumeType == "gp3" {
      if throughput == [] || throughput[0].price.None? {
        return None;
      }
      return Some(VolumePrices(storage.value, iops[0].price, throughput[0].price, []));
    }
    r := Some(VolumePrices(storage.value, iops[0].price, None, []));
  }

  // ---- where each price comes from --------------------------------------------------------

  ghost predicate IsFirst(flat: seq<Priced>, i: nat, p: Priced -> bool) {
    i < |flat| && p(flat[i]) && forall k :: 0 <= k < i ==> !p(flat[k])
  }

  // The price is that of the first dimension, in document order, that meets the condition.
  ghost predicate FirstPrice(documents: Option<seq<Document>>, p: Priced -> bool,
                             price: Option<Decimal>)
  {
    && documents.Some? && price.Some?
    && exists i: nat :: IsFirst(Flat(documents.value), i, p)
                        && Flat(documents.value)[i].1.price == price
  }

  lemma {:induction false} StripFirst(flat: seq<Priced>, keep: (string, Dimension) -> bool,
                                      p: Priced -> bool)
    requires forall x: Priced :: p(x) <==> keep(x.0, x.1)
    ensures Strip(flat, keep) == [] ==> forall i :: 0 <= i < |flat| ==> !p(flat[i])
    ensures Strip(flat, keep) != [] ==>
              exists i: nat :: IsFirst(flat, i, p) && flat[i].1 == Strip(flat, keep)[0]
  {
    if |flat| > 0 {
      var n := |flat| - 1;
      StripFirst(flat[..n], keep, p);
      if Strip(flat[..n], keep) != [] {
        var i: nat :| IsFirst(flat[..n], i, p) && flat[..n][i].1 == Strip(flat[..n], keep)[0];
        assert IsFirst(flat, i, p) && flat[i].1 == Strip(flat, keep)[0];
      } else if p(flat[n]) {
        assert forall k :: 0 <= k < n ==> flat[..n][k] == flat[k];
        assert IsFirst(flat, n, p) && flat[n].1 == Strip(flat, keep)[0];
      }
    }
  }

  lemma {:induction false} StripOnly(flat: seq<Priced>, keep: (string, Dimension) -> bool)
    ensures forall d :: d in Strip(flat, keep) <==> exists x :: x in flat && x.1 == d && keep(x.0, d)
  {
    if |flat| > 0 {
      var n := |flat| - 1;
      StripOnly(flat[..n], keep);
      assert flat == flat[..n] + [flat[n]];
    }
  }

  lemma SingleIsFirst(documents: seq<Document>, unit: string, suffix: string, p: Priced -> bool)
    requires forall x: Priced :: p(x) <==> x.1.unit == unit && EndsWith(x.0, suffix)
    requires SinglePrice(documents, unit, suffix).Some?
    ensures FirstPrice(Some(documents), p, SinglePrice(documents, unit, suffix))
  {
    hide EndsWith, Flat, First;
    var flat := Flat(documents);
    var i :| 0 <= i < |flat| && Some(flat[i].1) == First(flat, unit, suffix)
             && Qualifies(flat[i], unit, suffix)
             && forall k :: 0 <= k < i ==> !Qualifies(flat[k], unit, suffix);
    assert IsFirst(flat, i, p);
  }

  /** The storage price of a volume type is the first one per GB-month among its storage documents. */
  lemma StorageExactly(catalog: Catalog, region: string, volumeType: string, p: VolumePrices)
    requires VolumeUnitPrices(catalog, region, volumeType) == Some(p)
    ensures FirstPrice(catalog(Query("AmazonEC2", region, "Storage", Some(volumeType))),
                       (x: Priced) => x.1.unit == "GB-Mo", Some(p.storage))
  {
    var documents := catalog(StorageQuery(region, volumeType)).value;
    assert p.storage == SinglePrice(documents, "GB-Mo", "").value;
    hide VolumeUnitPrices, SinglePrice, Flat;
    SingleIsFirst(documents, "GB-Mo", "", (x: Priced) => x.1.unit == "GB-Mo");
  }

  /** Only gp3 and io1 have a price per IOPS, the first one of an IOPS dimension among the operation
      documents; only gp3 has one for throughput, the first of a throughput dimension; and only io2 has
      tiers. */
  lemma ExtrasExactly(catalog: Catalog, region: string, volumeType: string, p: VolumePrices)
    requires VolumeUnitPrices(catalog, region, volumeType) == Some(p)
    ensures p.iops.Some? <==> volumeType == "gp3" || volumeType == "io1"
    ensures p.throughput.Some? <==> volumeType == "gp3"
    ensures p.tiers != [] <==> volumeType == "io2"
    ensures var operations := catalog(Query("AmazonEC2", region, "System Operation",
                                            Some(volumeType)));
            && (p.iops.Some? ==>
                  FirstPrice(operations,
                             (x: Priced) => x.1.unit == "IOPS-Mo"
                                  || (Mentions(x.0, "VolumeP-IOPS") && x.1.unit != "MiBps-Mo"),
                             p.iops))
            && (p.throughput.Some? ==>
                  FirstPrice(operations,
                             (x: Priced) => x.1.unit == "MiBps-Mo" || Mentions(x.0, "VolumeP-Throughput"),
                             p.throughput))
  {
    hide SinglePrice, Flat, Strip, Mentions, TiersOf;
    var operations := catalog(OperationQuery(region, volumeType));
    if operations.Some? {
      var flat := Flat(operations.value);
      StripFirst(flat, ForIops, (x: Priced) => x.1.unit == "IOPS-Mo"
                                     || (Mentions(x.0, "VolumeP-IOPS") && x.1.unit != "MiBps-Mo"));
      StripFirst(flat, ForThroughput,
                 (x: Priced) => x.1.unit == "MiBps-Mo" || Mentions(x.0, "VolumeP-Throughput"));
      if volumeType == "io2" {
        var iops := Strip(flat, ForIops);
        TiersOfEach(iops);
        SortedPermutes(TiersOf(iops).value, BY_BEGIN);
        assert |multiset(p.tiers)| == |iops|;
      }
    }
  }

  // The tier is the one this dimension describes: a beginning that is missing or infinite is zero, and
  // such an end is none.
  predicate Describes(d: Dimension, t: Tier) {
    && d.price == Some(t.price) && !d.begin.Unreadable? && !d.end.Unreadable?
    && (if d.begin.Number? then t.begin == d.begin.n else t.begin == 0)
    && (if d.end.Number? then t.end == Some(d.end.n) else t.end.None?)
  }

  /** The tiers of io2 stand in the order of their beginnings, and there is one for each IOPS dimension
      of the operation documents, the one it describes. */
  lemma TiersExactly(catalog: Catalog, region: string, p: VolumePrices)
    returns (dimensions: seq<Dimension>, read: seq<Tier>)
    requires VolumeUnitPrices(catalog, region, "io2") == Some(p)
    ensures forall i, j :: 0 <= i < j < |p.tiers| ==> p.tiers[i].begin <= p.tiers[j].begin
    ensures multiset(p.tiers) == multiset(read)
    ensures |read| == |dimensions|
            && forall i :: 0 <= i < |read| ==> Describes(dimensions[i], read[i])
    ensures var operations := catalog(Query("AmazonEC2", region, "System Operation", Some("io2")));
            && operations.Some?
            && forall d :: d in dimensions <==>
                 exists x :: x in Flat(operations.value) && x.1 == d
                             && (d.unit == "IOPS-Mo"
                                 || (Mentions(x.0, "VolumeP-IOPS") && d.unit != "MiBps-Mo"))
  {
    hide SinglePrice, Flat, Strip, Mentions, TiersOf;
    var flat := Flat(catalog(OperationQuery(region, "io2")).value);
    dimensions := Strip(flat, ForIops);
    read := TiersOf(dimensions).value;
    TiersOfEach(dimensions);
    StripOnly(flat, ForIops);
    SortedSorts(read, BY_BEGIN);
    SortedPermutes(read, BY_BEGIN);
  }

  // ---- loading what a request needs -------------------------------------------------------

  // The part of a request that decides what is loaded, and under which the result is cached.
  datatype Key =
    | EbsKey(region: string, volumeType: string)
    | SnapshotKey(region: string, tier: string)
    | AddressKey(region: string)
    | StoppedKey(region: string, volumeTypes: set<string>, hasAddresses: bool)

  function Types(volumes: seq<Volume>): set<string> {
    set v | v in volumes :: v.volumeType
  }

  function KeyOf(request: Request): Key {
    match request
    case Ebs(v) => EbsKey(v.region, v.volumeType)
    case Snapshot(region, _, tier) => SnapshotKey(region, tier)
    case Address(region) => AddressKey(region)
    case Stopped(region, volumes, addresses) =>
      StoppedKey(region, Types(volumes), addresses != 0)
  }

  const ARCHIVE_SUFFIX := "EBS:SnapshotArchiveStorage"
  const SNAPSHOT_SUFFIX := "EBS:SnapshotUsage"
  const ADDRESS_SUFFIX := "PublicIPv4:IdleAddress"

  function AddressPrice(catalog: Catalog, region: string): Option<Decimal> {
    var documents := catalog(Query("AmazonVPC", region, "IP Address", None));
    if documents.None? then None else SinglePrice(documents.value, "Hrs", ADDRESS_SUFFIX)
  }

  function SnapshotPrice(catalog: Catalog, region: string, suffix: string): Option<Decimal> {
    var documents := catalog(Query("AmazonEC2", region, "Storage Snapshot", None));
    if documents.None? then None else SinglePrice(documents.value, "GB-Mo", suffix)
  }

  const NO_PRICES := UnitPrices(map[], None, None, None)

  // The prices of these volume types, unless one of them cannot be loaded.
  function TypePrices(catalog: Catalog, region: string, types: set<string>)
    : Option<map<string, VolumePrices>>
  {
    if forall t :: t in types ==> VolumeUnitPrices(catalog, region, t).Some? then
      Some(map t | t in types :: VolumeUnitPrices(catalog, region, t).value)
    else None
  }

  // What a load under this key yields; None is an error.
  function LoadFor(catalog: Catalog, key: Key): Option<UnitPrices> {
    match key
    case EbsKey(region, volumeType) =>
      var volumes := TypePrices(catalog, region, {volumeType});
      if volumes.None? then None else Some(NO_PRICES.(volumes := volumes.value))
    case SnapshotKey(region, tier) =>
      if tier == "archive" then
        var price := SnapshotPrice(catalog, region, ARCHIVE_SUFFIX);
        if price.None? then None else Some(NO_PRICES.(snapshotArchive := price))
      else
        var price := SnapshotPrice(catalog, region, SNAPSHOT_SUFFIX);
        if price.None? then None else Some(NO_PRICES.(snapshotStandard := price))
    case AddressKey(region) =>
      var price := AddressPrice(catalog, region);
      if price.None? then None else Some(NO_PRICES.(ipv4Hourly := price))
    case StoppedKey(region, types, hasAddresses) =>
      var volumes := TypePrices(catalog, region, types);
      if volumes.None? then None
      else if !hasAddresses then Some(NO_PRICES.(volumes := volumes.value))
      else
        var price := AddressPrice(catalog, region);
        if price.None? then None
        else Some(NO_PRICES.(volumes := volumes.value, ipv4Hourly := price))
  }

  method LoadAddressPrice(catalog: Catalog, region: string) returns (price: Option<Decimal>)
    ensures price == AddressPrice(catalog, region)
  {
    var documents := catalog(Query("AmazonVPC", region, "IP Address", None));
    if documents.None? {
      return None;
    }
    price := FindSinglePrice(documents.value, "Hrs", ADDRESS_SUFFIX);
  }

  method LoadSnapshotPrice(catalog: Catalog, region: string, suffix: string)
    returns (price: Option<Decimal>)
    ensures price == SnapshotPrice(catalog, region, suffix)
  {
    var documents := catalog(Query("AmazonEC2", region, "Storage Snapshot", None));
    if documents.None? {
      return None;
    }
    price := FindSinglePrice(documents.value, "GB-Mo", suffix);
  }

  method LoadTypes(catalog: Catalog, region: string, types: set<string>)
    returns (r: Option<map<string, VolumePrices>>)
    ensures r == TypePrices(catalog, region, types)
  {
    hide VolumeUnitPrices;
    var volumes: map<string, VolumePrices> := map[];
    var todo := types;
    while todo != {}
      invariant todo <= types && volumes.Keys == types - todo
      invariant forall t :: t in volumes ==>
                  VolumeUnitPrices(catalog, region, t) == Some(volumes[t])
      decreases |todo|
    {
      var t :| t in todo;
      var prices := LoadVolumePrices(catalog, region, t);
      if prices.None? {
        return None;
      }
      volumes := volumes[t := prices.value];
      todo := todo - {t};
    }
    assert volumes == map t | t in types :: VolumeUnitPrices(catalog, region, t).value;
    r := Some(volumes);
  }

  /** Loads what a request needs. Whatever its sizes, IOPS, throughput and multiplicities, requests
      with the same key load the same prices. */
  method Load(catalog: Catalog, request: Request) returns (r: Option<UnitPrices>)
    ensures r == LoadFor(catalog, KeyOf(request))
  {
    hide VolumeUnitPrices, SnapshotPrice, AddressPrice;
    match request {
      case Ebs(v) =>
        var prices := LoadVolumePrices(catalog, v.region, v.volumeType);
        if prices.None? {
          return None;
        }
        assert TypePrices(catalog, v.region, {v.volumeType}).value
            == map[v.volumeType := prices.value];
        r := Some(NO_PRICES.(volumes := map[v.volumeType := prices.value]));
      case Stopped(region, volumes, addresses) =>
        var loaded := LoadTypes(catalog, region, Types(volumes));
        if loaded.None? {
          return None;
        }
        var price: Option<Decimal> := None;
        if addresses != 0 {
          price := LoadAddressPrice(catalog, region);
          if price.None? {
            return None;
          }
        }
        r := Some(NO_PRICES.(volumes := loaded.value, ipv4Hourly := price));
      case Snapshot(region, _, tier) =>
        if tier == "archive" {
          var price := LoadSnapshotPrice(catalog, region, ARCHIVE_SUFFIX);
          r := if price.None? then None else Some(NO_PRICES.(snapshotArchive := price));
        } else {
          var price := LoadSnapshotPrice(catalog, region, SNAPSHOT_SUFFIX);
          r := if price.None? then None else Some(NO_PRICES.(snapshotStandard := price));
        }
      case Address(region) =>
        var price := LoadAddressPrice(catalog, region);
        r := if price.None? then None else Some(NO_PRICES.(ipv4Hourly := price));
    }
  }

  lemma AddressPriceIsFirst(catalog: Catalog, region: string)
    ensures AddressPrice(catalog, region).Some? ==>
              FirstPrice(catalog(Query("AmazonVPC", region, "IP Address", None)),
                         (x: Priced) => x.1.unit == "Hrs" && EndsWith(x.0, "PublicIPv4:IdleAddress"),
                         AddressPrice(catalog, region))
  {
    hide SinglePrice, Flat, EndsWith;
    if AddressPrice(catalog, region).Some? {
      SingleIsFirst(catalog(Query("AmazonVPC", region, "IP Address", None)).value, "Hrs",
                    ADDRESS_SUFFIX,
                    (x: Priced) => x.1.unit == "Hrs" && EndsWith(x.0, "PublicIPv4:IdleAddress"));
    }
  }

  lemma SnapshotPriceIsFirst(catalog: Catalog, region: string, suffix: string)
    ensures SnapshotPrice(catalog, region, suffix).Some? ==>
              FirstPrice(catalog(Query("AmazonEC2", region, "Storage Snapshot", None)),
                         (x: Priced) => x.1.unit == "GB-Mo" && EndsWith(x.0, suffix),
                         SnapshotPrice(catalog, region, suffix))
  {
    hide SinglePrice, Flat, EndsWith;
    if SnapshotPrice(catalog, region, suffix).Some? {
      SingleIsFirst(catalog(Query("AmazonEC2", region, "Storage Snapshot", None)).value, "GB-Mo",
                    suffix, (x: Priced) => x.1.unit == "GB-Mo" && EndsWith(x.0, suffix));
    }
  }

  /** What is loaded, and nothing else: the volume types the request names; an address price for an
      address or for a stopped instance that has some; for a snapshot the one price of its tier. */
  lemma LoadsExactly(catalog: Catalog, request: Request, prices: UnitPrices)
    requires LoadFor(catalog, KeyOf(request)) == Some(prices)
    ensures prices.volumes.Keys == (match request
                                    case Ebs(v) => {v.volumeType}
                                    case Stopped(_, volumes, _) => set v | v in volumes :: v.volumeType
                                    case _ => {})
    ensures prices.ipv4Hourly.Some? <==>
              request.Address? || (request.Stopped? && request.addresses != 0)
    ensures prices.snapshotArchive.Some? <==> request.Snapshot? && request.tier == "archive"
    ensures prices.snapshotStandard.Some? <==> request.Snapshot? && request.tier != "archive"
    ensures var region := if request.Ebs? then request.volume.region else request.region;
            && (forall t :: t in prices.volumes ==>
                  VolumeUnitPrices(catalog, region, t) == Some(prices.volumes[t]))
            && (prices.ipv4Hourly.Some? ==> prices.ipv4Hourly == AddressPrice(catalog, region))
            && (prices.snapshotArchive.Some? ==>
                  prices.snapshotArchive
                  == SnapshotPrice(catalog, region, "EBS:SnapshotArchiveStorage"))
            && (prices.snapshotStandard.Some? ==>
                  prices.snapshotStandard == SnapshotPrice(catalog, region, "EBS:SnapshotUsage"))
  {
    hide VolumeUnitPrices, SnapshotPrice, AddressPrice;
  }

  // A loaded volume type has every price that any volume of that type can need.
  lemma VolumePricesSuffice(catalog: Catalog, region: string, v: Volume, prices: UnitPrices)
    requires v.volumeType in prices.volumes
    requires VolumeUnitPrices(catalog, region, v.volumeType)
          == Some(prices.volumes[v.volumeType])
    ensures VolumeEstimate(v, prices).Ok?
  {
    hide Strip, Flat, SinglePrice, TierLines;
    if v.volumeType == "io2" {
      var operations := catalog(OperationQuery(region, v.volumeType)).value;
      var iops := Strip(Flat(operations), ForIops);
      TiersOfEach(iops);
      SortedPermutes(TiersOf(iops).value, BY_BEGIN);
      assert |multiset(Sorted(TiersOf(iops).value, BY_BEGIN))| == |iops|;
    }
  }

  /** What was loaded for one request prices every request with the same key: no size, IOPS,
      throughput, multiplicity or non-zero number of addresses makes the calculator miss a price. */
  lemma LoadSuffices(catalog: Catalog, request: Request, prices: UnitPrices)
    requires LoadFor(catalog, KeyOf(request)) == Some(prices)
    ensures EstimateOf(request, prices).Ok?
  {
    hide VolumeUnitPrices, VolumeEstimate, VolumesEstimate;
    match request
    case Ebs(v) =>
      VolumePricesSuffice(catalog, v.region, v, prices);
    case Stopped(region, volumes, addresses) =>
      forall v | v in volumes
        ensures VolumeEstimate(v, prices).Ok?
      {
        assert v.volumeType in Types(volumes);
        VolumePricesSuffice(catalog, region, v, prices);
      }
      VolumesAreEach(volumes, prices);
    case Snapshot(_, _, _) =>
    case Address(_) =>
  }
}
