/** The scan-scoped provider's memoizer as a transition system: any number of threads, one lock per
    key, every interleaving of their steps. */
module Memoizer {
  import opened Domain

  type Key = string
  type Tid = nat
  type LockId = nat

  // How a load, or a call, ends. Other errors are raised but never cached.
  datatype Outcome = Value(v: int) | ProviderError(code: int) | OtherError(code: int)

  predicate Cacheable(o: Outcome) {
    !o.OtherError?
  }

  // Where a thread stands in a call of _memoize; a thread may make any number of calls.
  datatype Pc =
    | Idle
    | WantsGuard(key: Key)
    | HasGuard(key: Key)
    | WantsLock(key: Key, lock: LockId)
    | HasLock(key: Key, lock: LockId)
    | Loading(key: Key, lock: LockId)
    | Storing(key: Key, lock: LockId, outcome: Outcome)
    | Leaving(key: Key, lock: LockId, outcome: Outcome)
    | Returned(key: Key, outcome: Outcome)

  // A finished call in the order in which the calls take effect: it loaded, or it hit the cache.
  datatype Effect = Effect(thread: Tid, key: Key, outcome: Outcome, loaded: bool)

  datatype State = State(
    threads: map<Tid, Pc>,
    cache: map<Key, Outcome>,
    locks: map<Key, LockId>,
    created: LockId,
    guard: Option<Tid>,
    held: map<LockId, Tid>,
    effects: seq<Effect>,
    loads: seq<(Key, Outcome)>)

  datatype Action =
    | Call(key: Key)
    | TakeGuard
    | SetDefaultAndLeave
    | TakeLock
    | Check
    | FinishLoad(outcome: Outcome)
    | Store
    | Leave

  predicate Enabled(s: State, t: Tid, a: Action) {
    t in s.threads &&
    match a
    case Call(_) => s.threads[t].Idle? || s.threads[t].Returned?
    case TakeGuard => s.threads[t].WantsGuard? && s.guard.None?
    case SetDefaultAndLeave => s.threads[t].HasGuard?
    case TakeLock => s.threads[t].WantsLock? && s.threads[t].lock !in s.held
    case Check => s.threads[t].HasLock?
    case FinishLoad(_) => s.threads[t].Loading?
    case Store => s.threads[t].Storing?
    case Leave => s.threads[t].Leaving?
  }

  function Goto(s: State, t: Tid, pc: Pc): State {
    s.(threads := s.threads[t := pc])
  }

  function Do(s: State, t: Tid, a: Action): State
    requires Enabled(s, t, a)
  {
    var pc := s.threads[t];
    match a
    case Call(key) => Goto(s, t, WantsGuard(key))
    case TakeGuard => Goto(s, t, HasGuard(pc.key)).(guard := Some(t))
    case SetDefaultAndLeave =>
      // The new lock object is created either way; it is kept only for a key without a lock.
      var lock := if pc.key in s.locks then s.locks[pc.key] else s.created;
      Goto(s, t, WantsLock(pc.key, lock))
      .(locks := s.locks[pc.key := lock], created := s.created + 1, guard := None)
    case TakeLock => Goto(s, t, HasLock(pc.key, pc.lock)).(held := s.held[pc.lock := t])
    case Check =>
      if pc.key in s.cache then
        Goto(s, t, Leaving(pc.key, pc.lock, s.cache[pc.key]))
        .(effects := s.effects + [Effect(t, pc.key, s.cache[pc.key], false)])
      else Goto(s, t, Loading(pc.key, pc.lock))
    case FinishLoad(outcome) =>
      Goto(s, t, Storing(pc.key, pc.lock, outcome)).(loads := s.loads + [(pc.key, outcome)])
    case Store =>
      Goto(s, t, Leaving(pc.key, pc.lock, pc.outcome))
      .(cache := if Cacheable(pc.outcome) then s.cache[pc.key := pc.outcome] else s.cache,
        effects := s.effects + [Effect(t, pc.key, pc.outcome, true)])
    case Leave => Goto(s, t, Returned(pc.key, pc.outcome)).(held := s.held - {pc.lock})
  }

  ghost predicate Initial(s: State) {
    && (forall t :: t in s.threads ==> s.threads[t].Idle?)
    && s.cache == map[] && s.locks == map[] && s.guard == None && s.held == map[]
    && s.effects == [] && s.loads == []
  }

  // An interleaving: which thread takes which step next.
  ghost predicate Legal(s: State, run: seq<(Tid, Action)>)
    decreases |run|
  {
    |run| > 0 ==> Enabled(s, run[0].0, run[0].1) && Legal(Do(s, run[0].0, run[0].1), run[1..])
  }

  ghost function After(s: State, run: seq<(Tid, Action)>): State
    requires Legal(s, run)
    decreases |run|
  {
    if |run| == 0 then s else After(Do(s, run[0].0, run[0].1), run[1..])
  }

  // ---- the sequential specification -------------------------------------------------------

  // What the cache holds after calls taking effect in this order, one at a time.
  function CacheOf(effects: seq<Effect>): map<Key, Outcome> {
    if |effects| == 0 then map[]
    else
      var rest, last := CacheOf(effects[..|effects|-1]), effects[|effects|-1];
      if last.loaded && Cacheable(last.outcome) then rest[last.key := last.outcome] else rest
  }

  // A sequential history of a memoizing cache: a call on a cached key returns what is cached, and a
  // call on any other key loads.
  ghost predicate Sequential(effects: seq<Effect>) {
    |effects| > 0 ==>
      var rest, last := effects[..|effects|-1], effects[|effects|-1];
      && Sequential(rest)
      && if last.key in CacheOf(rest) then !last.loaded && last.outcome == CacheOf(rest)[last.key]
         else last.loaded
  }

  // ---- what a memoizing history is, without its cache --------------------------------------

  // The call's place in a history: a value or a provider error before it settles how it ends, and it
  // does not load then; it loads only if nothing but other errors came before; if it does not load it
  // repeats a call that did, and does not end in another error.
  ghost predicate Fits(before: seq<Effect>, e: Effect) {
    && (forall d :: d in before && d.key == e.key && (d.outcome.Value? || d.outcome.ProviderError?) ==>
          !e.loaded && e.outcome == d.outcome)
    && (e.loaded ==> forall d :: d in before && d.key == e.key ==> d.outcome.OtherError?)
    && (!e.loaded ==>
          && !e.outcome.OtherError?
          && exists d :: d in before && d.key == e.key && d.loaded && d.outcome == e.outcome)
  }

  ghost predicate Memoized(effects: seq<Effect>) {
    forall j :: 0 <= j < |effects| ==> Fits(effects[..j], effects[j])
  }

  // The cache holds the values and provider errors the calls ended in, each loaded by one of them.
  ghost predicate CacheKnows(effects: seq<Effect>, cache: map<Key, Outcome>) {
    && (forall e :: e in effects && !e.outcome.OtherError? ==>
          e.key in cache && cache[e.key] == e.outcome)
    && (forall k :: k in cache ==>
          && !cache[k].OtherError?
          && exists e :: e in effects && e.key == k && e.loaded && e.outcome == cache[k])
  }

  lemma MemoizedSplit(effects: seq<Effect>, e: Effect)
    ensures Memoized(effects + [e]) <==> Memoized(effects) && Fits(effects, e)
  {
    hide Fits;
    var all := effects + [e];
    assert all[..|effects|] == effects && all[|effects|] == e;
    assert forall j :: 0 <= j < |effects| ==> all[..j] == effects[..j] && all[j] == effects[j];
    if Memoized(all) {
      assert Fits(all[..|effects|], all[|effects|]);
      assert forall j :: 0 <= j < |effects| ==> Fits(all[..j], all[j]);
    }
  }

  predicate Obeys(cache: map<Key, Outcome>, e: Effect) {
    if e.key in cache then !e.loaded && e.outcome == cache[e.key] else e.loaded
  }

  // With a cache that knows the history, fitting in is obeying the cache.
  lemma FitsExactly(effects: seq<Effect>, cache: map<Key, Outcome>, e: Effect)
    requires CacheKnows(effects, cache)
    ensures Fits(effects, e) <==> Obeys(cache, e)
  {
  }

  lemma CacheKnowsMore(effects: seq<Effect>, e: Effect)
    requires CacheKnows(effects, CacheOf(effects)) && Obeys(CacheOf(effects), e)
    ensures CacheKnows(effects + [e], CacheOf(effects + [e]))
  {
    var all := effects + [e];
    assert all[..|effects|] == effects && all[|effects|] == e;
    assert forall d :: d in all <==> d in effects || d == e;
  }

  /** The sequential histories of the cache are exactly those in which every call fits in. */
  lemma {:induction false} SequentialExactly(effects: seq<Effect>)
    ensures Sequential(effects) <==> Memoized(effects)
    ensures Memoized(effects) ==> CacheKnows(effects, CacheOf(effects))
  {
    if |effects| > 0 {
      hide CacheKnows, Memoized, Fits;
      var rest, last := effects[..|effects|-1], effects[|effects|-1];
      assert effects == rest + [last];
      SequentialExactly(rest);
      MemoizedSplit(rest, last);
      if Memoized(rest) {
        FitsExactly(rest, CacheOf(rest), last);
        if Fits(rest, last) {
          CacheKnowsMore(rest, last);
        }
      }
    }
  }

  // ---- the invariant ----------------------------------------------------------------------

  predicate UsesLock(pc: Pc) {
    pc.WantsLock? || pc.HasLock? || pc.Loading? || pc.Storing? || pc.Leaving?
  }

  predicate Holds(pc: Pc) {
    pc.HasLock? || pc.Loading? || pc.Storing? || pc.Leaving?
  }

  ghost predicate GuardIsExclusive(s: State) {
    && (forall t :: t in s.threads ==> (s.threads[t].HasGuard? <==> s.guard == Some(t)))
    && (s.guard.Some? ==> s.guard.value in s.threads)
  }

  // Every thread asking for a key has the one lock of that key; different keys, different locks.
  ghost predicate LocksAreShared(s: State) {
    && (forall t :: t in s.threads && UsesLock(s.threads[t]) ==>
          s.threads[t].key in s.locks && s.locks[s.threads[t].key] == s.threads[t].lock)
    && (forall k :: k in s.locks ==> s.locks[k] < s.created)
    && (forall j, k :: j in s.locks && k in s.locks && s.locks[j] == s.locks[k] ==> j == k)
  }

  ghost predicate HoldersHold(s: State) {
    forall t :: t in s.threads && Holds(s.threads[t]) ==>
      s.threads[t].lock in s.held && s.held[s.threads[t].lock] == t
  }

  ghost predicate HeldHasHolder(s: State) {
    forall l :: l in s.held ==>
      s.held[l] in s.threads && Holds(s.threads[s.held[l]]) && s.threads[s.held[l]].lock == l
  }

  ghost predicate HeldByHolder(s: State) {
    HoldersHold(s) && HeldHasHolder(s)
  }

  ghost predicate Locking(s: State) {
    GuardIsExclusive(s) && LocksAreShared(s) && HeldByHolder(s)
  }

  function CacheableLoads(loads: seq<(Key, Outcome)>, key: Key): nat {
    if |loads| == 0 then 0
    else CacheableLoads(loads[..|loads|-1], key)
         + if loads[|loads|-1].0 == key && Cacheable(loads[|loads|-1].1) then 1 else 0
  }

  ghost predicate AboutToStore(s: State, key: Key) {
    exists t :: t in s.threads && s.threads[t].Storing? && s.threads[t].key == key
                && Cacheable(s.threads[t].outcome)
  }

  // The effects so far are a sequential history, and the cache is what it leaves.
  ghost predicate Linearized(s: State) {
    && Sequential(s.effects) && CacheOf(s.effects) == s.cache
    && (forall k :: k in s.cache ==> Cacheable(s.cache[k]))
  }

  ghost predicate LoadingIsUncached(s: State) {
    forall t :: t in s.threads && (s.threads[t].Loading? || s.threads[t].Storing?) ==>
      s.threads[t].key !in s.cache
  }

  ghost predicate ResultsAreCached(s: State) {
    forall t :: t in s.threads && (s.threads[t].Leaving? || s.threads[t].Returned?)
                && Cacheable(s.threads[t].outcome) ==>
      s.threads[t].key in s.cache && s.cache[s.threads[t].key] == s.threads[t].outcome
  }

  ghost predicate LoadsAreOnce(s: State) {
    forall k :: CacheableLoads(s.loads, k) == if k in s.cache || AboutToStore(s, k) then 1 else 0
  }

  ghost predicate Caching(s: State) {
    Linearized(s) && LoadingIsUncached(s) && ResultsAreCached(s) && LoadsAreOnce(s)
  }

  ghost predicate Inv(s: State) {
    Locking(s) && Caching(s)
  }

  // Two threads inside the locked part of the same key are one thread.
  lemma OneHolder(s: State, t: Tid, u: Tid)
    requires Locking(s) && t in s.threads && u in s.threads
    requires Holds(s.threads[t]) && Holds(s.threads[u]) && s.threads[t].key == s.threads[u].key
    ensures t == u
  {
  }

  lemma GuardStep(s: State, t: Tid, a: Action)
    requires GuardIsExclusive(s) && Enabled(s, t, a)
    ensures GuardIsExclusive(Do(s, t, a))
  {
  }

  lemma SharedStep(s: State, t: Tid, a: Action)
    requires LocksAreShared(s) && Enabled(s, t, a)
    ensures LocksAreShared(Do(s, t, a))
  {
  }

  lemma HeldStep(s: State, t: Tid, a: Action)
    requires LocksAreShared(s) && HeldByHolder(s) && Enabled(s, t, a)
    ensures HeldByHolder(Do(s, t, a))
  {
    HoldersHoldStep(s, t, a);
    HeldHasHolderStep(s, t, a);
    hide HoldersHold, HeldHasHolder;
  }

  lemma HoldersHoldStep(s: State, t: Tid, a: Action)
    requires HoldersHold(s) && Enabled(s, t, a)
    ensures HoldersHold(Do(s, t, a))
  {
  }

  lemma HeldHasHolderStep(s: State, t: Tid, a: Action)
    requires HeldByHolder(s) && Enabled(s, t, a)
    ensures HeldHasHolder(Do(s, t, a))
  {
  }

  lemma LinearizedStep(s: State, t: Tid, a: Action)
    requires Inv(s) && Enabled(s, t, a)
    ensures Linearized(Do(s, t, a))
  {
    assert Linearized(s) && LoadingIsUncached(s);
    hide Locking, LoadsAreOnce, ResultsAreCached, Inv, Sequential, CacheOf;
    if a.Check? && s.threads[t].key in s.cache {
      EffectExtends(s.effects, Effect(t, s.threads[t].key, s.cache[s.threads[t].key], false));
    } else if a.Store? {
      EffectExtends(s.effects, Effect(t, s.threads[t].key, s.threads[t].outcome, true));
    }
  }

  lemma EffectExtends(effects: seq<Effect>, e: Effect)
    requires Sequential(effects)
    requires if e.key in CacheOf(effects) then !e.loaded && e.outcome == CacheOf(effects)[e.key]
             else e.loaded
    ensures Sequential(effects + [e])
    ensures CacheOf(effects + [e])
         == if e.loaded && Cacheable(e.outcome) then CacheOf(effects)[e.key := e.outcome]
            else CacheOf(effects)
  {
    assert (effects + [e])[..|effects|] == effects;
  }

  lemma UncachedStep(s: State, t: Tid, a: Action)
    requires Inv(s) && Enabled(s, t, a)
    ensures LoadingIsUncached(Do(s, t, a)) && ResultsAreCached(Do(s, t, a))
  {
    hide Locking, Linearized, LoadsAreOnce;
    if a.Store? {
      forall u | u in s.threads && u != t && (s.threads[u].Loading? || s.threads[u].Storing?)
        ensures s.threads[u].key != s.threads[t].key
      {
        if s.threads[u].key == s.threads[t].key {
          OneHolder(s, t, u);
        }
      }
    }
  }

  lemma LoadsStep(s: State, t: Tid, a: Action)
    requires Inv(s) && Enabled(s, t, a)
    ensures LoadsAreOnce(Do(s, t, a))
  {
    if a.FinishLoad? {
      LoadCounts(s, t, a.outcome);
    } else if a.Store? {
      StoreCounts(s, t);
    } else {
      SameStoring(s, t, Do(s, t, a));
    }
  }

  lemma SameStoring(s: State, t: Tid, next: State)
    requires t in s.threads && !s.threads[t].Storing?
    requires t in next.threads && !next.threads[t].Storing?
    requires next.threads == s.threads[t := next.threads[t]]
    ensures forall k :: AboutToStore(next, k) <==> AboutToStore(s, k)
  {
    forall k
      ensures AboutToStore(next, k) <==> AboutToStore(s, k)
    {
      if u :| u in s.threads && s.threads[u].Storing? && s.threads[u].key == k
              && Cacheable(s.threads[u].outcome) {
        assert u in next.threads && next.threads[u] == s.threads[u];
      }
    }
  }

  lemma LoadCounts(s: State, t: Tid, outcome: Outcome)
    requires Inv(s) && Enabled(s, t, FinishLoad(outcome))
    ensures LoadsAreOnce(Do(s, t, FinishLoad(outcome)))
  {
    var next := Do(s, t, FinishLoad(outcome));
    assert next.loads[..|s.loads|] == s.loads;
    forall k
      ensures CacheableLoads(next.loads, k)
           == if k in next.cache || AboutToStore(next, k) then 1 else 0
    {
      if k == s.threads[t].key {
        forall u | u in s.threads && u != t && s.threads[u].Storing?
          ensures s.threads[u].key != k
        {
          if s.threads[u].key == k {
            OneHolder(s, t, u);
          }
        }
        assert next.threads[t] == Storing(k, s.threads[t].lock, outcome);
        assert forall u :: u in s.threads && u != t ==> next.threads[u] == s.threads[u];
      } else {
        OtherKeys(s, t, next, k);
      }
    }
  }

  lemma OtherKeys(s: State, t: Tid, next: State, k: Key)
    requires t in s.threads && t in next.threads
    requires next.threads == s.threads[t := next.threads[t]]
    requires s.threads[t].Storing? ==> s.threads[t].key != k
    requires next.threads[t].Storing? ==> next.threads[t].key != k
    ensures AboutToStore(next, k) <==> AboutToStore(s, k)
  {
    if u :| u in s.threads && s.threads[u].Storing? && s.threads[u].key == k
            && Cacheable(s.threads[u].outcome) {
      assert u in next.threads && next.threads[u] == s.threads[u];
    }
  }

  lemma StoreCounts(s: State, t: Tid)
    requires Inv(s) && Enabled(s, t, Store)
    ensures LoadsAreOnce(Do(s, t, Store))
  {
    hide Linearized, ResultsAreCached;
    var next := Do(s, t, Store);
    var key, outcome := s.threads[t].key, s.threads[t].outcome;
    forall u | u in s.threads && u != t && s.threads[u].Storing?
      ensures s.threads[u].key != key
    {
      if s.threads[u].key == key {
        OneHolder(s, t, u);
      }
    }
    forall k
      ensures CacheableLoads(next.loads, k)
           == if k in next.cache || AboutToStore(next, k) then 1 else 0
    {
      if k == key {
        assert AboutToStore(s, k) <==> Cacheable(outcome);
        assert !AboutToStore(next, k);
      } else {
        OtherKeys(s, t, next, k);
      }
    }
  }

  lemma InvStep(s: State, t: Tid, a: Action)
    requires Inv(s) && Enabled(s, t, a)
    ensures Inv(Do(s, t, a))
  {
    hide GuardIsExclusive, LocksAreShared, HeldByHolder, Do, Enabled;
    hide Linearized, LoadingIsUncached, ResultsAreCached, LoadsAreOnce;
    GuardStep(s, t, a);
    SharedStep(s, t, a);
    HeldStep(s, t, a);
    LinearizedStep(s, t, a);
    UncachedStep(s, t, a);
    LoadsStep(s, t, a);
  }

  lemma {:induction false} InvAlways(s: State, run: seq<(Tid, Action)>)
    requires Inv(s) && Legal(s, run)
    ensures Inv(After(s, run))
    decreases |run|
  {
    if |run| > 0 {
      InvStep(s, run[0].0, run[0].1);
      InvAlways(Do(s, run[0].0, run[0].1), run[1..]);
    }
  }

  lemma InitialInv(s: State)
    requires Initial(s)
    ensures Inv(s)
  {
  }

  // Calls on a key that came back with a value or a provider error came back with the same.
  ghost predicate SameResults(s: State) {
    forall t, u :: t in s.threads && u in s.threads ==>
      var p, q := s.threads[t], s.threads[u];
      p.Returned? && q.Returned? && p.key == q.key && !p.outcome.OtherError? && !q.outcome.OtherError?
      ==> p.outcome == q.outcome
  }

  ghost predicate OneLockPerKey(s: State) {
    forall t, u :: t in s.threads && u in s.threads ==>
      var p, q := s.threads[t], s.threads[u];
      UsesLock(p) && UsesLock(q) ==> (p.key == q.key <==> p.lock == q.lock)
  }

  ghost predicate MutualExclusion(s: State) {
    forall t, u :: t in s.threads && u in s.threads && t != u ==>
      var p, q := s.threads[t], s.threads[u];
      Holds(p) && Holds(q) ==> p.key != q.key
  }

  // Before a load of a key ends, all its loads ended in other errors: so at most one, the last, did not.
  ghost predicate LoadsRetryErrors(loads: seq<(Key, Outcome)>) {
    forall i, j :: 0 <= i < j < |loads| && loads[i].0 == loads[j].0 ==> loads[i].1.OtherError?
  }

  lemma {:induction false} NoCacheableLoad(loads: seq<(Key, Outcome)>, key: Key)
    requires CacheableLoads(loads, key) == 0
    ensures forall i :: 0 <= i < |loads| && loads[i].0 == key ==> loads[i].1.OtherError?
  {
    if |loads| > 0 {
      NoCacheableLoad(loads[..|loads|-1], key);
      assert forall i :: 0 <= i < |loads| - 1 ==> loads[..|loads|-1][i] == loads[i];
    }
  }

  lemma RetryStep(s: State, t: Tid, a: Action)
    requires Inv(s) && Enabled(s, t, a) && LoadsRetryErrors(s.loads)
    ensures LoadsRetryErrors(Do(s, t, a).loads)
  {
    hide Linearized, ResultsAreCached;
    if a.FinishLoad? {
      var key := s.threads[t].key;
      forall u | u in s.threads && s.threads[u].Storing?
        ensures s.threads[u].key != key
      {
        if s.threads[u].key == key {
          OneHolder(s, t, u);
        }
      }
      assert !AboutToStore(s, key);
      NoCacheableLoad(s.loads, key);
    }
  }

  lemma {:induction false} RetryAlways(s: State, run: seq<(Tid, Action)>)
    requires Inv(s) && Legal(s, run) && LoadsRetryErrors(s.loads)
    ensures LoadsRetryErrors(After(s, run).loads)
    decreases |run|
  {
    if |run| > 0 {
      hide Inv, Do, Enabled, LoadsRetryErrors;
      RetryStep(s, run[0].0, run[0].1);
      InvStep(s, run[0].0, run[0].1);
      RetryAlways(Do(s, run[0].0, run[0].1), run[1..]);
    }
  }

  /** Safety in every interleaving: per key at most one load ends in a value or a provider error;
      calls that came back with one all came back with the same one; threads asking for a key share
      its lock and only one of them is inside at a time; and the calls, in the order in which they
      took effect, are a sequential history of a memoizing cache. In the outcomes' own words: after a
      value or a provider error every later call on the key ends in it without loading, a call loads
      only after nothing but other errors, and a hit repeats a load. */
  lemma EveryInterleavingIsSafe(start: State, run: seq<(Tid, Action)>)
    requires Initial(start) && Legal(start, run)
    ensures var s := After(start, run);
            && (forall k :: CacheableLoads(s.loads, k) <= 1)
            && Sequential(s.effects) && CacheOf(s.effects) == s.cache
            && SameResults(s) && OneLockPerKey(s) && MutualExclusion(s)
            && Memoized(s.effects) && CacheKnows(s.effects, s.cache) && LoadsRetryErrors(s.loads)
  {
    InitialInv(start);
    assert LoadsRetryErrors(start.loads);
    hide After, Legal, Initial, Memoized, CacheKnows, LoadsRetryErrors;
    InvAlways(start, run);
    RetryAlways(start, run);
    var s := After(start, run);
    SequentialExactly(s.effects);
    forall k
      ensures CacheableLoads(s.loads, k) <= 1
    {
      assert LoadsAreOnce(s);
    }
  }

  // ---- a cached outcome is there to stay --------------------------------------------------

  lemma CacheKeeps(s: State, t: Tid, a: Action, k: Key)
    requires Inv(s) && Enabled(s, t, a) && k in s.cache
    ensures k in Do(s, t, a).cache && Do(s, t, a).cache[k] == s.cache[k]
  {
    hide Locking, Linearized, ResultsAreCached, LoadsAreOnce;
    assert a.Store? ==> s.threads[t].key !in s.cache;
  }

  /** Once a key has an outcome, a call on it that has not come back yet will come back with that
      outcome, and it never loads again. */
  lemma {:induction false} LaterCallsAgree(s: State, run: seq<(Tid, Action)>, k: Key,
                                           t: Tid)
    requires Inv(s) && Legal(s, run) && k in s.cache
    requires t in s.threads && !s.threads[t].Idle? && s.threads[t].key == k
    requires s.threads[t].Leaving? || s.threads[t].Returned? ==>
               s.threads[t].outcome == s.cache[k]
    requires forall i :: 0 <= i < |run| ==> run[i].0 != t || !run[i].1.Call?
    ensures var end := After(s, run);
            && k in end.cache && end.cache[k] == s.cache[k]
            && t in end.threads && !end.threads[t].Idle? && end.threads[t].key == k
            && !end.threads[t].Loading? && !end.threads[t].Storing?
            && (end.threads[t].Returned? ==> end.threads[t].outcome == s.cache[k])
    decreases |run|
  {
    assert LoadingIsUncached(s);
    if |run| > 0 {
      hide Inv;
      var (u, a) := run[0];
      InvStep(s, u, a);
      CacheKeeps(s, u, a, k);
      ThreadOnCachedKey(s, u, a, k, t);
      assert forall i :: 0 <= i < |run| - 1 ==> run[1..][i] == run[i + 1];
      LaterCallsAgree(Do(s, u, a), run[1..], k, t);
    }
  }

  lemma ThreadOnCachedKey(s: State, u: Tid, a: Action, k: Key, t: Tid)
    requires Inv(s) && Enabled(s, u, a) && k in s.cache
    requires t in s.threads && !s.threads[t].Idle? && s.threads[t].key == k
    requires s.threads[t].Leaving? || s.threads[t].Returned? ==>
               s.threads[t].outcome == s.cache[k]
    requires u != t || !a.Call?
    ensures var next := Do(s, u, a).threads;
            && t in next && !next[t].Idle? && next[t].key == k
            && (next[t].Leaving? || next[t].Returned? ==> next[t].outcome == s.cache[k])
  {
    hide Locking, Linearized, ResultsAreCached, LoadsAreOnce;
  }

  // ---- one effect per call, between its beginning and its end ------------------------------

  function CallsBy(run: seq<(Tid, Action)>, t: Tid): nat {
    if |run| == 0 then 0
    else (if run[0].0 == t && run[0].1.Call? then 1 else 0) + CallsBy(run[1..], t)
  }

  function EffectsBy(effects: seq<Effect>, t: Tid): nat {
    if |effects| == 0 then 0
    else EffectsBy(effects[..|effects|-1], t) + if effects[|effects|-1].thread == t then 1 else 0
  }

  // A call is under way and has not taken effect yet.
  predicate Pending(s: State, t: Tid) {
    t in s.threads && !s.threads[t].Idle? && !s.threads[t].Leaving? && !s.threads[t].Returned?
  }

  lemma EffectStep(s: State, u: Tid, a: Action, t: Tid)
    requires Enabled(s, u, a)
    ensures EffectsBy(Do(s, u, a).effects, t) + (if Pending(Do(s, u, a), t) then 1 else 0)
         == EffectsBy(s.effects, t) + (if Pending(s, t) then 1 else 0)
            + if u == t && a.Call? then 1 else 0
  {
    var next := Do(s, u, a);
    assert next.effects == s.effects || next.effects[..|s.effects|] == s.effects;
  }

  /** Every call takes effect exactly once, after it began and before it returns: together with the
      sequential history this makes the memoizer linearizable. */
  lemma {:induction false} OneEffectPerCall(s: State, run: seq<(Tid, Action)>, t: Tid)
    requires Legal(s, run)
    ensures EffectsBy(After(s, run).effects, t) + (if Pending(After(s, run), t) then 1 else 0)
         == EffectsBy(s.effects, t) + (if Pending(s, t) then 1 else 0) + CallsBy(run, t)
    decreases |run|
  {
    if |run| > 0 {
      hide Do, Enabled, Pending, EffectsBy;
      EffectStep(s, run[0].0, run[0].1, t);
      OneEffectPerCall(Do(s, run[0].0, run[0].1), run[1..], t);
    }
  }

  // The last effect of the thread is the outcome it is coming back with.
  ghost predicate Faithful(s: State) {
    forall t :: t in s.threads && (s.threads[t].Leaving? || s.threads[t].Returned?) ==>
      exists i :: 0 <= i < |s.effects| && s.effects[i].thread == t
                  && s.effects[i].key == s.threads[t].key
                  && s.effects[i].outcome == s.threads[t].outcome
                  && forall j :: i < j < |s.effects| ==> s.effects[j].thread != t
  }

  lemma FaithfulStep(s: State, t: Tid, a: Action)
    requires Faithful(s) && Enabled(s, t, a)
    ensures Faithful(Do(s, t, a))
  {
    var next := Do(s, t, a);
    forall u | u in next.threads && (next.threads[u].Leaving? || next.threads[u].Returned?)
      ensures exists i :: 0 <= i < |next.effects| && next.effects[i].thread == u
                  && next.effects[i].key == next.threads[u].key
                  && next.effects[i].outcome == next.threads[u].outcome
                  && forall j :: i < j < |next.effects| ==> next.effects[j].thread != u
    {
      if u == t && (a.Check? || a.Store?) {
        assert next.effects[|s.effects|].thread == t;
      } else {
        var i :| 0 <= i < |s.effects| && s.effects[i].thread == u
                 && s.effects[i].key == s.threads[u].key
                 && s.effects[i].outcome == s.threads[u].outcome
                 && forall j :: i < j < |s.effects| ==> s.effects[j].thread != u;
        assert next.effects[i] == s.effects[i];
      }
    }
  }

  /** What a call returns or raises is the outcome of its own effect. */
  lemma {:induction false} CallsReturnTheirEffect(s: State, run: seq<(Tid, Action)>)
    requires Faithful(s) && Legal(s, run)
    ensures Faithful(After(s, run))
    decreases |run|
  {
    if |run| > 0 {
      hide Faithful, Do, Enabled;
      FaithfulStep(s, run[0].0, run[0].1);
      CallsReturnTheirEffect(Do(s, run[0].0, run[0].1), run[1..]);
    }
  }

  // ---- progress ---------------------------------------------------------------------------

  // The steps a thread's own call still needs at most.
  function StepsLeft(pc: Pc): nat {
    match pc
    case Idle => 0
    case Returned(_, _) => 0
    case Leaving(_, _, _) => 1
    case Storing(_, _, _) => 2
    case Loading(_, _) => 3
    case HasLock(_, _) => 4
    case WantsLock(_, _) => 5
    case HasGuard(_) => 6
    case WantsGuard(_) => 7
  }

  // The step a thread wants to take next, a load being free to end in any way.
  function OwnStep(pc: Pc): Action {
    match pc
    case WantsGuard(_) => TakeGuard
    case HasGuard(_) => SetDefaultAndLeave
    case WantsLock(_, _) => TakeLock
    case HasLock(_, _) => Check
    case Loading(_, _) => FinishLoad(Value(0))
    case Storing(_, _, _) => Store
    case _ => Action.Leave
  }

  // The thread that can move when t cannot: whoever has what t waits for.
  function Mover(s: State, t: Tid): Tid
    requires t in s.threads
  {
    var pc := s.threads[t];
    if pc.WantsGuard? && s.guard.Some? then s.guard.value
    else if pc.WantsLock? && pc.lock in s.held then s.held[pc.lock] else t
  }

  lemma MoverCanMove(s: State, t: Tid)
    requires GuardIsExclusive(s) && HeldByHolder(s)
    requires t in s.threads && StepsLeft(s.threads[t]) > 0
    ensures var u := Mover(s, t);
            u in s.threads && Enabled(s, u, OwnStep(s.threads[u]))
            && !OwnStep(s.threads[u]).Call?
  {
  }

  lemma StepAdvances(s: State, u: Tid, a: Action)
    requires Enabled(s, u, a) && !a.Call?
    ensures StepsLeft(Do(s, u, a).threads[u]) < StepsLeft(s.threads[u])
    ensures forall v :: v in s.threads && v != u ==> Do(s, u, a).threads[v] == s.threads[v]
  {
  }

  /** No deadlock: in every reachable state with a call under way some thread can take a step of its
      call, and every such step brings that call closer to its end without setting another back. */
  lemma NoDeadlock(start: State, run: seq<(Tid, Action)>, t: Tid)
    requires Initial(start) && Legal(start, run)
    requires t in After(start, run).threads && StepsLeft(After(start, run).threads[t]) > 0
    ensures var s := After(start, run);
            var u := Mover(s, t);
            && u in s.threads && Enabled(s, u, OwnStep(s.threads[u]))
            && var next := Do(s, u, OwnStep(s.threads[u]));
            && StepsLeft(next.threads[u]) < StepsLeft(s.threads[u])
            && forall v :: v in s.threads && v != u ==> next.threads[v] == s.threads[v]
  {
    InitialInv(start);
    InvAlways(start, run);
    var s := After(start, run);
    hide Caching, After, Legal, Initial, GuardIsExclusive, LocksAreShared, HeldByHolder;
    hide Enabled, Do, OwnStep, Mover, StepsLeft;
    MoverCanMove(s, t);
    StepAdvances(s, Mover(s, t), OwnStep(s.threads[Mover(s, t)]));
  }
}
