/** The time-limited cache in front of the price list: what is stored, when it is used again, and that
    a cached answer is one the loader itself would have given. */
module PriceCache {
  import opened Domain
  import opened Calculator
  import opened Decimals
  import opened PriceApi

  // ---- the stored form --------------------------------------------------------------------

  datatype TierText = TierText(begin: int, end: Option<int>, price: string)

  datatype VolumeText = VolumeText(
    storage: string, iops: Option<string>, throughput: Option<string>, tiers: seq<TierText>)

  datatype Payload = Payload(
    volumes: map<string, VolumeText>, snapshotStandard: Option<string>,
    snapshotArchive: Option<string>, ipv4Hourly: Option<string>, fetchedAt: Time)

  function Written(c: Codec, x: Option<Decimal>): Option<string> {
    if x.None? then None else Some(c.show(x.value))
  }

  // An absent or empty text reads as no price.
  function ReadBack(c: Codec, text: Option<string>): Option<Decimal> {
    if text.None? || text.value == "" then None else Some(c.parse(text.value))
  }

  function VolumeToText(c: Codec, p: VolumePrices): VolumeText {
    VolumeText(c.show(p.storage), Written(c, p.iops), Written(c, p.throughput),
               seq(|p.tiers|, i requires 0 <= i < |p.tiers| =>
                 TierText(p.tiers[i].begin, p.tiers[i].end, c.show(p.tiers[i].price))))
  }

  function VolumeFromText(c: Codec, t: VolumeText): VolumePrices {
    VolumePrices(c.parse(t.storage), ReadBack(c, t.iops), ReadBack(c, t.throughput),
                 seq(|t.tiers|, i requires 0 <= i < |t.tiers| =>
                   Tier(t.tiers[i].begin, t.tiers[i].end, c.parse(t.tiers[i].price))))
  }

  function ToPayload(c: Codec, prices: UnitPrices, fetchedAt: Time): Payload {
    Payload(map t | t in prices.volumes :: VolumeToText(c, prices.volumes[t]),
            Written(c, prices.snapshotStandard), Written(c, prices.snapshotArchive),
            Written(c, prices.ipv4Hourly), fetchedAt)
  }

  function FromPayload(c: Codec, p: Payload): (UnitPrices, Time) {
    (UnitPrices(map t | t in p.volumes :: VolumeFromText(c, p.volumes[t]),
                ReadBack(c, p.snapshotStandard), ReadBack(c, p.snapshotArchive),
                ReadBack(c, p.ipv4Hourly)),
     p.fetchedAt)
  }

  lemma ReadsBack(c: Codec, x: Option<Decimal>)
    requires Faithful(c)
    ensures ReadBack(c, Written(c, x)) == x
  {
    if x.Some? {
      assert c.parse(c.show(x.value)) == x.value;
    }
  }

  lemma VolumeRoundTrip(c: Codec, p: VolumePrices)
    requires Faithful(c)
    ensures VolumeFromText(c, VolumeToText(c, p)) == p
  {
    var back := VolumeFromText(c, VolumeToText(c, p));
    ReadsBack(c, p.iops);
    ReadsBack(c, p.throughput);
    assert c.parse(c.show(p.storage)) == p.storage;
    forall i | 0 <= i < |p.tiers|
      ensures back.tiers[i] == p.tiers[i]
    {
      assert c.parse(c.show(p.tiers[i].price)) == p.tiers[i].price;
    }
    assert back.tiers == p.tiers;
  }

  /** Reading a stored payload gives back exactly the prices and the time that were stored. */
  lemma PayloadRoundTrip(c: Codec, prices: UnitPrices, fetchedAt: Time)
    requires Faithful(c)
    ensures FromPayload(c, ToPayload(c, prices, fetchedAt)) == (prices, fetchedAt)
  {
    hide VolumeFromText, VolumeToText, Written, ReadBack, Faithful;
    var back := FromPayload(c, ToPayload(c, prices, fetchedAt)).0;
    forall t | t in prices.volumes
      ensures back.volumes[t] == prices.volumes[t]
    {
      VolumeRoundTrip(c, prices.volumes[t]);
    }
    assert back.volumes == prices.volumes;
    ReadsBack(c, prices.snapshotStandard);
    ReadsBack(c, prices.snapshotArchive);
    ReadsBack(c, prices.ipv4Hourly);
  }

  // ---- the cache --------------------------------------------------------------------------

  // When each payload was stored.
  type Items = map<Key, (Time, Payload)>

  // What the cache still offers under a key: nothing once an entry is older than the time to live.
  function Offered(items: Items, ttl: int, key: Key, now: Time): Option<Payload> {
    if key !in items || now - items[key].0 > ttl then None else Some(items[key].1)
  }

  class Cache {
    const ttl: int
    var items: Items

    constructor (ttl: int)
      ensures this.ttl == ttl && items == map[]
    {
      this.ttl, items := ttl, map[];
    }

    method Get(key: Key, now: Time) returns (payload: Option<Payload>)
      ensures payload == Offered(items, ttl, key, now)
      ensures payload.Some? <==> key in items && now - items[key].0 <= ttl
      ensures payload.Some? ==> payload.value == items[key].1
    {
      if key !in items {
        return None;
      }
      var (storedAt, stored) := items[key];
      payload := if now - storedAt > ttl then None else Some(stored);
    }

    method Set(key: Key, payload: Payload, now: Time)
      modifies this
      ensures items == old(items)[key := (now, payload)]
    {
      items := items[key := (now, payload)];
    }
  }

  // ---- estimates through the cache --------------------------------------------------------

  // The clock at the moments an estimate reads it: looking into the cache, loading, stamping what
  // was loaded, and storing it.
  datatype Moments = Moments(look: Time, load: Time, stamp: Time, store: Time)

  // The price list as it is at every moment, the codec, and the time to live.
  datatype World = World(catalogs: Time -> Catalog, codec: Codec, ttl: int)

  // An estimate with the time its prices were fetched.
  datatype Dated = Dated(estimate: Estimate, fetchedAt: Time)

  function DatedEstimate(request: Request, prices: UnitPrices, fetchedAt: Time): Option<Dated> {
    match EstimateOf(request, prices)
    case Ok(e) => Some(Dated(e, fetchedAt))
    case Err(_) => None
  }

  // What loading at this moment, without any cache, answers; None is an error.
  function Uncached(w: World, request: Request, at: Time): Option<Estimate> {
    var prices := LoadFor(w.catalogs(at), KeyOf(request));
    if prices.None? then None
    else
      match EstimateOf(request, prices.value)
      case Ok(e) => Some(e)
      case Err(_) => None
  }

  // The cache and the answer after an estimate. An error leaves the function by exception.
  function Answered(w: World, items: Items, request: Request, m: Moments): (Items, Option<Dated>) {
    var key := KeyOf(request);
    match Offered(items, w.ttl, key, m.look)
    case Some(payload) =>
      var (prices, fetchedAt) := FromPayload(w.codec, payload);
      (items, DatedEstimate(request, prices, fetchedAt))
    case None =>
      match LoadFor(w.catalogs(m.load), key)
      case None => (items, None)
      case Some(prices) =>
        (items[key := (m.store, ToPayload(w.codec, prices, m.stamp))],
         DatedEstimate(request, prices, m.stamp))
  }

  class Backend {
    const world: World
    const cache: Cache

    constructor (world: World)
      ensures this.world == world && cache.ttl == world.ttl && fresh(cache) && cache.items == map[]
    {
      this.world := world;
      cache := new Cache(world.ttl);
    }

    /** Prices a request with what the cache offers, or loads and stores first. */
    method EstimateRequest(request: Request, m: Moments) returns (r: Option<Dated>)
      requires cache.ttl == world.ttl
      modifies cache
      ensures (cache.items, r) == Answered(world, old(cache.items), request, m)
    {
      hide EstimateOf, LoadFor;
      var key := KeyOf(request);
      var cached := cache.Get(key, m.look);
      var prices: UnitPrices;
      var fetchedAt: Time;
      if cached.None? {
        var loaded := Load(world.catalogs(m.load), request);
        if loaded.None? {
          return None;
        }
        prices, fetchedAt := loaded.value, m.stamp;
        cache.Set(key, ToPayload(world.codec, prices, fetchedAt), m.store);
      } else {
        var back := FromPayload(world.codec, cached.value);
        prices, fetchedAt := back.0, back.1;
      }
      var estimate := Calculate(request, prices);
      r := if estimate.Ok? then Some(Dated(estimate.value, fetchedAt)) else None;
    }
  }

  // ---- any sequence of requests -----------------------------------------------------------

  datatype Call = Call(request: Request, moments: Moments)

  // The cache after a sequence of estimates.
  function After(w: World, calls: seq<Call>): Items {
    if |calls| == 0 then map[]
    else
      var last := calls[|calls| - 1];
      Answered(w, After(w, calls[..|calls| - 1]), last.request, last.moments).0
  }

  // The answer to one of the calls.
  function AnswerTo(w: World, calls: seq<Call>, j: nat): Option<Dated>
    requires j < |calls|
  {
    Answered(w, After(w, calls[..j]), calls[j].request, calls[j].moments).1
  }

  // The i-th call loaded prices under the key and stored them as this entry.
  ghost predicate StoredBy(w: World, calls: seq<Call>, i: nat, key: Key, entry: (Time, Payload)) {
    && i < |calls| && KeyOf(calls[i].request) == key
    && var prices := LoadFor(w.catalogs(calls[i].moments.load), key);
       && prices.Some? && entry.0 == calls[i].moments.store
       && entry.1 == ToPayload(w.codec, prices.value, calls[i].moments.stamp)
  }

  lemma {:induction false} EntriesWereLoaded(w: World, calls: seq<Call>, key: Key)
    requires key in After(w, calls)
    ensures exists i: nat :: StoredBy(w, calls, i, key, After(w, calls)[key])
  {
    hide LoadFor, EstimateOf, ToPayload, FromPayload;
    var n := |calls| - 1;
    var before := After(w, calls[..n]);
    var last := calls[n];
    if key == KeyOf(last.request)
       && Answered(w, before, last.request, last.moments).0 != before {
      assert StoredBy(w, calls, n, key, After(w, calls)[key]);
    } else {
      EntriesWereLoaded(w, calls[..n], key);
      var i: nat :| StoredBy(w, calls[..n], i, key, before[key]);
      assert StoredBy(w, calls, i, key, before[key]);
    }
  }

  // The j-th answer is the one a load at the time of the i-th call would have given: the call itself,
  // or an earlier one with the same key whose entry was not older than the time to live.
  ghost predicate Backed(w: World, calls: seq<Call>, j: nat, i: nat) {
    && i <= j < |calls|
    && KeyOf(calls[i].request) == KeyOf(calls[j].request)
    && (i < j ==> calls[j].moments.look - calls[i].moments.store <= w.ttl)
    && var direct := Uncached(w, calls[j].request, calls[i].moments.load);
       && direct.Some?
       && AnswerTo(w, calls, j) == Some(Dated(direct.value, calls[i].moments.stamp))
  }

  lemma UncachedAnswers(w: World, request: Request, at: Time)
    requires LoadFor(w.catalogs(at), KeyOf(request)).Some?
    ensures Uncached(w, request, at).Some?
    ensures EstimateOf(request, LoadFor(w.catalogs(at), KeyOf(request)).value)
         == Ok(Uncached(w, request, at).value)
  {
    LoadSuffices(w.catalogs(at), request, LoadFor(w.catalogs(at), KeyOf(request)).value);
    hide LoadFor, EstimateOf;
  }

  /** Over any sequence of requests and clock readings: an answer is what an uncached estimate would
      have given at the time its prices were loaded, by this call or by an earlier one that is not
      older than the time to live; and there is no answer exactly when the cache offers nothing and
      an uncached estimate fails now. */
  lemma {:induction false} CachedAgreesWithUncached(w: World, calls: seq<Call>, j: nat)
    requires Faithful(w.codec) && j < |calls|
    ensures AnswerTo(w, calls, j).Some? ==> exists i: nat :: Backed(w, calls, j, i)
    ensures var m, key := calls[j].moments, KeyOf(calls[j].request);
            AnswerTo(w, calls, j).None? <==>
              && Offered(After(w, calls[..j]), w.ttl, key, m.look).None?
              && Uncached(w, calls[j].request, m.load).None?
  {
    hide LoadFor, EstimateOf, ToPayload, FromPayload, Faithful, After;
    var items, m, key := After(w, calls[..j]), calls[j].moments, KeyOf(calls[j].request);
    var request := calls[j].request;
    if Offered(items, w.ttl, key, m.look).Some? {
      EntriesWereLoaded(w, calls[..j], key);
      var i: nat :| StoredBy(w, calls[..j], i, key, items[key]);
      var first := calls[i].moments;
      var prices := LoadFor(w.catalogs(first.load), key).value;
      PayloadRoundTrip(w.codec, prices, first.stamp);
      UncachedAnswers(w, request, first.load);
      assert Backed(w, calls, j, i);
    } else if LoadFor(w.catalogs(m.load), key).Some? {
      UncachedAnswers(w, request, m.load);
      assert Backed(w, calls, j, j);
    }
  }
}
