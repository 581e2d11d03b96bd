/** wrappers/passthrough_cache/wrapper.py: the two-tier wrapper itself, over two store
    objects. Every method is tied to its meaning in PassthroughSpec. */
module PassthroughCaches {
  import opened Prelude
  import opened TimeToLive
  import opened KeyValue
  import opened BulkOperations
  import opened BaseStores
  import opened TtlClamps
  import opened PassthroughNames
  import opened PassthroughSpec

  // ----- Python's dict, as far as the bulk reads use it -----

  /** The keys of `dict.fromkeys(keys)`, in insertion order: each once, at its first place. */
  function Distinct(keys: seq<string>): (order: seq<string>)
    ensures forall k :: k in order <==> k in keys
    ensures forall i, j | 0 <= i < j < |order| :: order[i] != order[j]
  {
    if keys == [] then []
    else
      var n := |keys| - 1;
      var before := Distinct(keys[..n]);
      assert keys == keys[..n] + [keys[n]];
      if keys[n] in before then before else before + [keys[n]]
  }

  /** `[key for key, value in d.items() if value is missing]` */
  function KeysWith<V(==)>(order: seq<string>, d: map<string, V>, missing: V): (ks: seq<string>)
    requires forall k | k in order :: k in d
    requires forall i, j | 0 <= i < j < |order| :: order[i] != order[j]
    ensures forall k :: k in ks <==> k in order && d[k] == missing
    ensures forall i, j | 0 <= i < j < |ks| :: ks[i] != ks[j]
  {
    if order == [] then []
    else
      var rest := KeysWith(order[1..], d, missing);
      if d[order[0]] == missing then [order[0]] + rest else rest
  }

  // ----- Filling the cache in bulk -----

  /** The entries that a bulk read collects for the cache: the uncached keys that are live in
      the primary, with their values and remaining TTLs. */
  ghost predicate Collected(s: Tiers<Slot>, slots: seq<Slot>, values: seq<Dict>, ttls: seq<Option<real>>, now: Time) {
    && |slots| == |values| == |ttls|
    && forall i | 0 <= i < |slots| ::
      && NeedsFill(s, slots[i], now)
      && Reading(Some(values[i]), ttls[i]) == ReadEntry(s.primary[slots[i]], now)
  }

  /** They are all of them. */
  ghost predicate CollectedAll(s: Tiers<Slot>, keys: seq<Slot>, slots: seq<Slot>, now: Time) {
    forall k :: k in slots <==> k in keys && NeedsFill(s, k, now)
  }

  /** The TTLs that the clamped bulk put will use, when it succeeds. */
  lemma ClampedTtls(
      c: Clamp, s: Tiers<Slot>, slots: seq<Slot>, values: seq<Dict>, ttls: seq<Option<real>>, now: Time)
    requires Collected(s, slots, values, ttls, now)
    ensures ClampEach(c, ttls).Ok? && |ClampEach(c, ttls).value| == |slots|
    ensures
      var ts := ClampEach(c, ttls).value;
      forall i | 0 <= i < |slots| ::
        FillEntry(c, s.primary[slots[i]], now) ==
          if PositiveTtl(ts[i]) then Ok(NewEntry(values[i], ts[i], now)) else Err(InvalidTtl)
  {
    ClampEachOutcome(c, ttls);
    assert forall i | 0 <= i < |ttls| :: ttls[i] == ReadEntry(s.primary[slots[i]], now).ttl;
  }

  lemma PutAllOverlays(t: Table<Slot>, slots: seq<Slot>, entries: seq<Entry>, overlay: Table<Slot>)
    requires |slots| == |entries|
    requires forall k :: k in overlay <==> k in slots
    requires forall i | 0 <= i < |slots| :: entries[i] == overlay[slots[i]]
    ensures PutAll(t, slots, entries) == t + overlay
  {
    LastDuplicateWins(t, slots, entries);
  }

  lemma PutBulkOfList(t: Table<Slot>, slots: seq<Slot>, values: seq<Dict>, ts: seq<Option<real>>, now: Time)
    requires |slots| == |values| == |ts|
    ensures PutBulk(t, slots, values, List(ts), now) ==
      if exists i | 0 <= i < |ts| :: !PositiveTtl(ts[i]) then Err(InvalidTtl)
      else Ok(PutAll(t, slots, NewEntries(values, ts, now)))
  {
    ValidateEachOutcome(ts);
  }

  /** The put_many of the collected entries leaves the cache that the specification fills. */
  lemma BulkFill(
      c: Clamp, s: Tiers<Slot>, keys: seq<Slot>, slots: seq<Slot>, values: seq<Dict>, ttls: seq<Option<real>>, now: Time)
    requires Collected(s, slots, values, ttls, now) && CollectedAll(s, keys, slots, now)
    ensures ClampedPutBulk(c, s.cache, slots, values, List(ttls), now) ==
      if FillsFail(c, s, keys, now) then Err(InvalidTtl) else Ok(Filled(c, s, keys, now))
  {
    ClampedTtls(c, s, slots, values, ttls, now);
    var ts := ClampEach(c, ttls).value;
    PutBulkOfList(s.cache, slots, values, ts, now);
    if i :| 0 <= i < |ts| && !PositiveTtl(ts[i]) {
      assert slots[i] in slots;
      assert FillsFail(c, s, keys, now);
    } else {
      forall k | k in keys && NeedsFill(s, k, now) ensures FillEntry(c, s.primary[k], now).Ok? {
        assert k in slots;
        var i :| 0 <= i < |slots| && slots[i] == k;
      }
      PutAllOverlays(s.cache, slots, NewEntries(values, ts, now),
                     map k | k in keys && NeedsFill(s, k, now) :: FillEntry(c, s.primary[k], now).value);
    }
  }

  lemma NothingToFill(c: Clamp, s: Tiers<Slot>, keys: seq<Slot>, now: Time)
    requires CollectedAll(s, keys, [], now)
    ensures !FillsFail(c, s, keys, now) && Filled(c, s, keys, now) == s.cache
  {
    forall k | k in keys ensures !NeedsFill(s, k, now) {
      var none: seq<Slot> := [];
      assert k !in none;
    }
  }

  // ----- The collecting loop -----

  ghost function KeysOf(keys: seq<string>): set<string> {
    set k | k in keys
  }

  /** The three lists after the loop has gone through the keys `done`. */
  ghost predicate Collecting(
      s: Tiers<Slot>, where: string, done: seq<string>,
      toCacheKeys: seq<string>, toCache: seq<Dict>, toCacheTtls: seq<Option<real>>, now: Time)
  {
    && |toCacheKeys| == |toCache| == |toCacheTtls|
    && (forall k :: k in toCacheKeys <==> k in done && Live(s.primary, Slot(where, k), now).Some?)
    && forall i | 0 <= i < |toCacheKeys| ::
      && Slot(where, toCacheKeys[i]) in s.primary
      && Reading(Some(toCache[i]), toCacheTtls[i]) == ReadEntry(s.primary[Slot(where, toCacheKeys[i])], now)
  }

  lemma CollectNext(
      s: Tiers<Slot>, where: string, keys: seq<string>, i: nat,
      toCacheKeys: seq<string>, toCache: seq<Dict>, toCacheTtls: seq<Option<real>>, now: Time)
    requires i < |keys| && Collecting(s, where, keys[..i], toCacheKeys, toCache, toCacheTtls, now)
    ensures
      var entry := TtlOne(s.primary, Slot(where, keys[i]), now, now);
      if entry.value.Some?
      then Collecting(s, where, keys[..i + 1], toCacheKeys + [keys[i]], toCache + [entry.value.value],
                      toCacheTtls + [entry.ttl], now)
      else Collecting(s, where, keys[..i + 1], toCacheKeys, toCache, toCacheTtls, now)
  {
    assert keys[..i + 1] == keys[..i] + [keys[i]];
  }

  lemma CollectedEverything(
      s: Tiers<Slot>, where: string, keys: seq<string>, uncachedKeys: seq<string>,
      toCacheKeys: seq<string>, toCache: seq<Dict>, toCacheTtls: seq<Option<real>>, now: Time)
    requires Collecting(s, where, uncachedKeys, toCacheKeys, toCache, toCacheTtls, now)
    requires forall k :: k in uncachedKeys <==> k in keys && Live(s.cache, Slot(where, k), now).None?
    ensures Collected(s, SlotsIn(where, toCacheKeys), toCache, toCacheTtls, now)
    ensures CollectedAll(s, SlotsIn(where, keys), SlotsIn(where, toCacheKeys), now)
  {
    assert forall i | 0 <= i < |toCacheKeys| :: toCacheKeys[i] in uncachedKeys;
    SlotsInHold(where, keys);
    SlotsInHold(where, toCacheKeys);
  }

  lemma SlotsInHold(where: string, keys: seq<string>)
    ensures forall k :: k in SlotsIn(where, keys) <==> k.collection == where && k.key in keys
  {
    forall key | key in keys ensures Slot(where, key) in SlotsIn(where, keys) {
      var i :| 0 <= i < |keys| && keys[i] == key;
      assert SlotsIn(where, keys)[i] == Slot(where, key);
    }
  }

  /** The dict of cached answers and the keys whose answer is missing, each once. The answers
      for a repeated key are the same, being read at one instant. */
  method FindUncached<V(==)>(keys: seq<string>, cachedEntries: seq<V>, missing: V)
    returns (keyToValue: map<string, V>, uncachedKeys: seq<string>)
    requires |keys| == |cachedEntries|
    requires forall i, j | 0 <= i < |keys| && 0 <= j < |keys| && keys[i] == keys[j] ::
      cachedEntries[i] == cachedEntries[j]
    ensures keyToValue.Keys == KeysOf(keys)
    ensures forall i | 0 <= i < |keys| :: keyToValue[keys[i]] == cachedEntries[i]
    ensures forall k :: k in uncachedKeys <==> k in keys && keyToValue[k] == missing
    ensures forall i, j | 0 <= i < j < |uncachedKeys| :: uncachedKeys[i] != uncachedKeys[j]
  {
    keyToValue := map k | k in keys :: missing;
    for i := 0 to |keys|
      invariant keyToValue.Keys == KeysOf(keys)
      invariant forall j | 0 <= j < i :: keyToValue[keys[j]] == cachedEntries[j]
    {
      keyToValue := keyToValue[keys[i] := cachedEntries[i]];
    }
    uncachedKeys := KeysWith(Distinct(keys), keyToValue, missing);
  }

  /** The loop over the uncached keys: their answers go into the dict, and those that the
      primary holds onto the three lists. */
  method Collect<V(!new)>(
      ghost s: Tiers<Slot>, ghost where: string, uncachedKeys: seq<string>, uncachedEntries: seq<Reading>,
      answers: seq<V>, d: map<string, V>, now: Time)
    returns (d': map<string, V>, toCacheKeys: seq<string>, toCache: seq<Dict>, toCacheTtls: seq<Option<real>>)
    requires uncachedEntries == TtlAll(s.primary, SlotsIn(where, uncachedKeys), now, now)
    requires |answers| == |uncachedKeys|
    requires forall i, j | 0 <= i < j < |uncachedKeys| :: uncachedKeys[i] != uncachedKeys[j]
    ensures Collecting(s, where, uncachedKeys, toCacheKeys, toCache, toCacheTtls, now)
    ensures Merged(d, uncachedKeys, answers, d')
  {
    d', toCacheKeys, toCache, toCacheTtls := d, [], [], [];
    for i := 0 to |uncachedKeys|
      invariant Collecting(s, where, uncachedKeys[..i], toCacheKeys, toCache, toCacheTtls, now)
      invariant forall k :: k in d' <==> k in d || k in uncachedKeys[..i]
      invariant forall j | 0 <= j < i :: d'[uncachedKeys[j]] == answers[j]
      invariant forall k | k in d && k !in uncachedKeys[..i] :: d'[k] == d[k]
    {
      var key, entry := uncachedKeys[i], uncachedEntries[i];
      CollectNext(s, where, uncachedKeys, i, toCacheKeys, toCache, toCacheTtls, now);
      if entry.value.Some? {
        toCacheKeys := toCacheKeys + [key];
        toCache := toCache + [entry.value.value];
        toCacheTtls := toCacheTtls + [entry.ttl];
      }
      d' := d'[key := answers[i]];
      assert uncachedKeys[..i + 1] == uncachedKeys[..i] + [key];
    }
    assert uncachedKeys[..|uncachedKeys|] == uncachedKeys;
  }

  /** `[d[key] for key in keys]` */
  function LookupAll<V>(keys: seq<string>, d: map<string, V>): (vs: seq<V>)
    requires forall k | k in keys :: k in d
    ensures |vs| == |keys| && forall i | 0 <= i < |keys| :: vs[i] == d[keys[i]]
  {
    seq(|keys|, i requires 0 <= i < |keys| => d[keys[i]])
  }

  /** The keys that the bulk reads ask the primary for: each once. */
  ghost predicate IsUncached(s: Tiers<Slot>, where: string, keys: seq<string>, uncachedKeys: seq<string>, now: Time) {
    && (forall k :: k in uncachedKeys <==> k in keys && Live(s.cache, Slot(where, k), now).None?)
    && forall i, j | 0 <= i < j < |uncachedKeys| :: uncachedKeys[i] != uncachedKeys[j]
  }

  /** d' is d overwritten with answers under keys. */
  ghost predicate Merged<V(!new)>(d: map<string, V>, keys: seq<string>, answers: seq<V>, d': map<string, V>)
    requires |keys| == |answers|
  {
    && (forall k :: k in d' <==> k in d || k in keys)
    && (forall i | 0 <= i < |keys| :: d'[keys[i]] == answers[i])
    && forall k | k in d && k !in keys :: d'[k] == d[k]
  }

  lemma ReadingsServed(
      s: Tiers<Slot>, where: string, keys: seq<string>, uncachedKeys: seq<string>,
      d: map<string, Reading>, d': map<string, Reading>, now: Time)
    requires IsUncached(s, where, keys, uncachedKeys, now)
    requires forall k | k in keys :: k in d && d[k] == TtlOne(s.cache, Slot(where, k), now, now)
    requires Merged(d, uncachedKeys, TtlAll(s.primary, SlotsIn(where, uncachedKeys), now, now), d')
    ensures (forall k | k in keys :: k in d') && LookupAll(keys, d') == ServedAll(s, SlotsIn(where, keys), now)
  {
    forall k | k in keys ensures d'[k] == Served(s, Slot(where, k), now) {
      if i :| 0 <= i < |uncachedKeys| && uncachedKeys[i] == k {
        assert d'[uncachedKeys[i]] == TtlOne(s.primary, Slot(where, k), now, now);
      }
    }
  }

  lemma AnswersServed(
      s: Tiers<Slot>, where: string, keys: seq<string>, uncachedKeys: seq<string>,
      d: map<string, Option<Dict>>, d': map<string, Option<Dict>>, now: Time)
    requires IsUncached(s, where, keys, uncachedKeys, now)
    requires forall k | k in keys :: k in d && d[k] == GetOne(s.cache, Slot(where, k), now)
    requires Merged(d, uncachedKeys, ValuesOf(TtlAll(s.primary, SlotsIn(where, uncachedKeys), now, now)), d')
    ensures (forall k | k in keys :: k in d')
         && LookupAll(keys, d') == ValuesOf(ServedAll(s, SlotsIn(where, keys), now))
  {
    forall k | k in keys ensures d'[k] == Served(s, Slot(where, k), now).value {
      if i :| 0 <= i < |uncachedKeys| && uncachedKeys[i] == k {
        assert d'[uncachedKeys[i]] == TtlOne(s.primary, Slot(where, k), now, now).value;
      }
    }
  }

  lemma ReadThrough(c: Clamp, s: Tiers<Slot>, slots: seq<Slot>, now: Time)
    ensures Through(c, s, Call.TtlMany(slots), now) == BulkThrough(c, s, slots, now, ReadMany(ServedAll(s, slots, now)))
  {
  }

  // ----- The wrapper -----

  class PassthroughCacheWrapper {
    const store: Store
    const cacheStore: TtlClampWrapper

    constructor (primaryStore: Store, cacheStore: Store, maximumTtl: Option<real>, missingTtl: Option<real>)
      ensures this.store == primaryStore && this.cacheStore.store == cacheStore
      ensures this.cacheStore.clamp == CacheClamp(maximumTtl, missingTtl)
      ensures forall m, n :: IsLimit(maximumTtl, m) && IsLimit(missingTtl, n) ==>
        this.cacheStore.clamp == Clamp(0.0, m, Some(n))
    {
      this.store := primaryStore;
      this.cacheStore := new TtlClampWrapper(
        cacheStore, 0.0, RealOr(maximumTtl, DEFAULT_MAX_TTL), Some(RealOr(missingTtl, DEFAULT_MISSING_TTL)));
    }

    /** The name that `collection` selects in the primary, and in the cache. */
    function PrimaryName(collection: Option<string>): string {
      CollectionOr(collection, store.defaultCollection)
    }

    function CacheName(collection: Option<string>): string {
      CollectionOr(collection, cacheStore.store.defaultCollection)
    }

    /** The two tables as a call with this collection means them: the cache's with its name for
        the collection and the primary's exchanged. */
    ghost function Tables(collection: Option<string>): Tiers<Slot>
      reads store, cacheStore.store
    {
      Tiers(store.data, SeenAs(cacheStore.store.data, PrimaryName(collection), CacheName(collection)))
    }

    /** With the same default, or a collection given, they are the tables themselves. */
    lemma TablesOfSameNames(collection: Option<string>)
      requires store.defaultCollection == cacheStore.store.defaultCollection
            || (collection.Some? && collection.value != "")
      ensures Tables(collection) == Tiers(store.data, cacheStore.store.data)
    {
      SeenAsItself(cacheStore.store.data, PrimaryName(collection));
    }

    ghost predicate TwoStores() {
      store != cacheStore.store
    }

    method Get(key: string, collection: Option<string>, now: Time) returns (r: Result<Option<Dict>>)
      requires TwoStores()
      modifies cacheStore.store`data
      ensures Through(cacheStore.clamp, old(Tables(collection)), Call.Get(store.SlotOf(collection, key)), now)
           == Outcome(Tables(collection), if r.Ok? then Got(r.value) else Raised(r.error))
    {
      ghost var a, b, before := PrimaryName(collection), CacheName(collection), cacheStore.store.data;
      SeenLive(before, a, b, key, now);
      var cached := cacheStore.store.Get(key, collection, now);
      if Truthy(cached) {
        return Ok(cached);
      }
      var uncached := store.Ttl(key, collection, now, now);
      if !Truthy(uncached.value) {
        return Ok(None);
      }
      SeenClampedPut(cacheStore.clamp, before, a, b, key, uncached.value.value, uncached.ttl, now);
      var stored := cacheStore.Put(key, uncached.value.value, collection, uncached.ttl, now);
      if stored.Err? {
        return Err(stored.error);
      }
      return Ok(uncached.value);
    }

    method Ttl(key: string, collection: Option<string>, now: Time) returns (r: Result<Reading>)
      requires TwoStores()
      modifies cacheStore.store`data
      ensures Through(cacheStore.clamp, old(Tables(collection)), Call.Ttl(store.SlotOf(collection, key)), now)
           == Outcome(Tables(collection), if r.Ok? then Read(r.value) else Raised(r.error))
    {
      ghost var a, b, before := PrimaryName(collection), CacheName(collection), cacheStore.store.data;
      SeenLive(before, a, b, key, now);
      var cached := cacheStore.store.Ttl(key, collection, now, now);
      if Truthy(cached.value) {
        return Ok(cached);
      }
      var uncached := store.Ttl(key, collection, now, now);
      if !Truthy(uncached.value) {
        return Ok(MISSING);
      }
      SeenClampedPut(cacheStore.clamp, before, a, b, key, uncached.value.value, uncached.ttl, now);
      var stored := cacheStore.Put(key, uncached.value.value, collection, uncached.ttl, now);
      if stored.Err? {
        return Err(stored.error);
      }
      return Ok(uncached);
    }

    /** Merges the primary's answers for the uncached keys into the dict, then puts what the
        primary holds of them into the cache: `if entries_to_cache:`. */
    method FillUncached<V(!new)>(
        ghost keys: seq<string>, uncachedKeys: seq<string>, uncachedEntries: seq<Reading>,
        answers: seq<V>, d: map<string, V>, collection: Option<string>, now: Time)
      returns (r: Result<map<string, V>>)
      requires TwoStores()
      requires uncachedEntries == TtlAll(store.data, store.SlotsOf(collection, uncachedKeys), now, now)
      requires |answers| == |uncachedKeys|
      requires IsUncached(Tables(collection), PrimaryName(collection), keys, uncachedKeys, now)
      modifies cacheStore.store`data
      ensures FillsFail(cacheStore.clamp, old(Tables(collection)), store.SlotsOf(collection, keys), now) ==>
        r == Err(InvalidTtl) && cacheStore.store.data == old(cacheStore.store.data)
      ensures !FillsFail(cacheStore.clamp, old(Tables(collection)), store.SlotsOf(collection, keys), now) ==>
        && r.Ok? && Merged(d, uncachedKeys, answers, r.value)
        && Tables(collection).cache
           == Filled(cacheStore.clamp, old(Tables(collection)), store.SlotsOf(collection, keys), now)
    {
      ghost var s, a, b := Tables(collection), PrimaryName(collection), CacheName(collection);
      var d', toCacheKeys, toCache, toCacheTtls := Collect(s, a, uncachedKeys, uncachedEntries, answers, d, now);
      CollectedEverything(s, a, keys, uncachedKeys, toCacheKeys, toCache, toCacheTtls, now);
      if toCache != [] {
        BulkFill(cacheStore.clamp, s, SlotsIn(a, keys), SlotsIn(a, toCacheKeys), toCache, toCacheTtls, now);
        SeenClampedPutBulk(
          cacheStore.clamp, cacheStore.store.data, a, b, toCacheKeys, toCache, List(toCacheTtls), now);
        var stored := cacheStore.PutMany(toCacheKeys, toCache, collection, List(toCacheTtls), now);
        if stored.Err? {
          return Err(stored.error);
        }
      } else {
        NothingToFill(cacheStore.clamp, s, SlotsIn(a, keys), now);
      }
      return Ok(d');
    }

    /** The dict `key_to_value` holds first the cached values, then the primary's for the rest. */
    method GetMany(keys: seq<string>, collection: Option<string>, now: Time) returns (r: Result<seq<Option<Dict>>>)
      requires TwoStores()
      modifies cacheStore.store`data
      ensures Through(cacheStore.clamp, old(Tables(collection)), Call.GetMany(store.SlotsOf(collection, keys)), now)
           == Outcome(Tables(collection), if r.Ok? then GotMany(r.value) else Raised(r.error))
    {
      ghost var s, a := Tables(collection), PrimaryName(collection);
      SeenReads(cacheStore.store.data, a, CacheName(collection), keys, now);
      StandingStill(cacheStore.store.data, cacheStore.store.SlotsOf(collection, keys), [], NoTtl, now);
      var cachedEntries := cacheStore.store.GetMany(keys, collection, StillAt(now));
      var keyToValue, uncachedKeys := FindUncached(keys, cachedEntries, None);
      assert IsUncached(s, a, keys, uncachedKeys, now);
      StandingStill(store.data, store.SlotsOf(collection, uncachedKeys), [], NoTtl, now);
      var uncachedEntries := store.TtlMany(uncachedKeys, collection, StillAt(now), StillAt(now));
      var filled := FillUncached(
        keys, uncachedKeys, uncachedEntries, ValuesOf(uncachedEntries), keyToValue, collection, now);
      if filled.Err? {
        return Err(filled.error);
      }
      AnswersServed(s, a, keys, uncachedKeys, keyToValue, filled.value, now);
      return Ok(LookupAll(keys, filled.value));
    }

    /** As GetMany, on pairs of value and TTL. */
    method TtlMany(keys: seq<string>, collection: Option<string>, now: Time) returns (r: Result<seq<Reading>>)
      requires TwoStores()
      modifies cacheStore.store`data
      ensures Through(cacheStore.clamp, old(Tables(collection)), Call.TtlMany(store.SlotsOf(collection, keys)), now)
           == Outcome(Tables(collection), if r.Ok? then ReadMany(r.value) else Raised(r.error))
    {
      ghost var s, a := Tables(collection), PrimaryName(collection);
      SeenReads(cacheStore.store.data, a, CacheName(collection), keys, now);
      StandingStill(cacheStore.store.data, cacheStore.store.SlotsOf(collection, keys), [], NoTtl, now);
      var cachedEntries := cacheStore.store.TtlMany(keys, collection, StillAt(now), StillAt(now));
      ReadThrough(cacheStore.clamp, s, SlotsIn(a, keys), now);
      var keyToValue, uncachedKeys := FindUncached(keys, cachedEntries, MISSING);
      assert IsUncached(s, a, keys, uncachedKeys, now);
      StandingStill(store.data, store.SlotsOf(collection, uncachedKeys), [], NoTtl, now);
      var uncachedEntries := store.TtlMany(uncachedKeys, collection, StillAt(now), StillAt(now));
      var filled := FillUncached(keys, uncachedKeys, uncachedEntries, uncachedEntries, keyToValue, collection, now);
      if filled.Err? {
        return Err(filled.error);
      }
      ReadingsServed(s, a, keys, uncachedKeys, keyToValue, filled.value, now);
      return Ok(LookupAll(keys, filled.value));
    }

    method Put(key: string, value: Dict, collection: Option<string>, ttl: Option<real>, now: Time)
      returns (r: Result<()>)
      requires TwoStores()
      modifies store`data, cacheStore.store`data
      ensures Through(cacheStore.clamp, old(Tables(collection)), Call.Put(store.SlotOf(collection, key), value, ttl), now)
           == Outcome(Tables(collection), if r.Ok? then Stored else Raised(r.error))
    {
      SeenDelete(cacheStore.store.data, PrimaryName(collection), CacheName(collection), key);
      var _ := cacheStore.store.Delete(key, collection);
      r := store.Put(key, value, collection, ttl, now);
    }

    method PutMany(keys: seq<string>, values: seq<Dict>, collection: Option<string>, ttl: TtlArg, now: Time)
      returns (r: Result<()>)
      requires TwoStores()
      modifies store`data, cacheStore.store`data
      ensures Through(cacheStore.clamp, old(Tables(collection)),
                      Call.PutMany(store.SlotsOf(collection, keys), values, ttl), now)
           == Outcome(Tables(collection), if r.Ok? then Stored else Raised(r.error))
    {
      SeenDeleteAll(cacheStore.store.data, PrimaryName(collection), CacheName(collection), keys);
      var _ := cacheStore.store.DeleteMany(keys, collection);
      StandingStill(store.data, store.SlotsOf(collection, keys), values, ttl, now);
      r := store.PutMany(keys, values, collection, ttl, StillAt(now));
    }

    method Delete(key: string, collection: Option<string>, ghost now: Time) returns (existed: bool)
      requires TwoStores()
      modifies store`data, cacheStore.store`data
      ensures Through(cacheStore.clamp, old(Tables(collection)), Call.Delete(store.SlotOf(collection, key)), now)
           == Outcome(Tables(collection), Deleted(existed))
    {
      SeenDelete(cacheStore.store.data, PrimaryName(collection), CacheName(collection), key);
      var _ := cacheStore.store.Delete(key, collection);
      existed := store.Delete(key, collection);
    }

    method DeleteMany(keys: seq<string>, collection: Option<string>, ghost now: Time) returns (deletedCount: int)
      requires TwoStores()
      modifies store`data, cacheStore.store`data
      ensures Through(cacheStore.clamp, old(Tables(collection)), Call.DeleteMany(store.SlotsOf(collection, keys)), now)
           == Outcome(Tables(collection), DeletedMany(deletedCount))
    {
      SeenDeleteAll(cacheStore.store.data, PrimaryName(collection), CacheName(collection), keys);
      DeletedThrough(cacheStore.clamp, Tables(collection), store.SlotsOf(collection, keys), now);
      DeleteManyShape(store.data, store.SlotsOf(collection, keys), now);
      var _ := cacheStore.store.DeleteMany(keys, collection);
      deletedCount := store.DeleteMany(keys, collection);
    }
  }
}
