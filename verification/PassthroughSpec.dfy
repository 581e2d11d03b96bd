/** wrappers/passthrough_cache/wrapper.py as functions of its two tables, for calls during
    which the clock stands still. */
module PassthroughSpec {
  import opened Prelude
  import opened TimeToLive
  import opened ManagedEntries
  import opened KeyValue
  import opened TtlClamps

  datatype Tiers<K> = Tiers(primary: Table<K>, cache: Table<K>)

  const DEFAULT_MAX_TTL: real := 1800.0
  const DEFAULT_MISSING_TTL: real := 1800.0

  /** `x or default`: None and 0.0 both select the default. */
  function RealOr(x: Option<real>, default: real): real {
    if x.None? || x.value == 0.0 then default else x.value
  }

  /** The clamp put around the cache store. */
  function CacheClamp(maximumTtl: Option<real>, missingTtl: Option<real>): Clamp {
    Clamp(0.0, RealOr(maximumTtl, DEFAULT_MAX_TTL), Some(RealOr(missingTtl, DEFAULT_MISSING_TTL)))
  }

  /** `if value`: neither None nor the empty dict. */
  predicate Truthy(v: Option<Dict>) {
    v.Some? && v.value != EMPTY_DICT
  }

  // ----- Single reads -----

  function GetThrough<K>(c: Clamp, s: Tiers<K>, k: K, now: Time): Outcome<Tiers<K>> {
    var cached := GetOne(s.cache, k, now);
    if Truthy(cached) then Outcome(s, Got(cached))
    else
      var uncached := TtlOne(s.primary, k, now, now);
      if !Truthy(uncached.value) then Outcome(s, Got(None))
      else
        match ClampedPut(c, s.cache, k, uncached.value.value, uncached.ttl, now)
        case Err(e) => Outcome(s, Raised(e))
        case Ok(cache) => Outcome(s.(cache := cache), Got(uncached.value))
  }

  function TtlThrough<K>(c: Clamp, s: Tiers<K>, k: K, now: Time): Outcome<Tiers<K>> {
    var cached := TtlOne(s.cache, k, now, now);
    if Truthy(cached.value) then Outcome(s, Read(cached))
    else
      var uncached := TtlOne(s.primary, k, now, now);
      if !Truthy(uncached.value) then Outcome(s, Read(MISSING))
      else
        match ClampedPut(c, s.cache, k, uncached.value.value, uncached.ttl, now)
        case Err(e) => Outcome(s, Raised(e))
        case Ok(cache) => Outcome(s.(cache := cache), Read(uncached))
  }

  // ----- Bulk reads -----

  /** What the cache stores when it is filled at `now` from an entry that was read at `read`,
      which is when its remaining TTL was computed. */
  function FillFrom(c: Clamp, e: Entry, read: Time, now: Time): Result<Entry> {
    match ClampTtl(c, ReadEntry(e, read).ttl)
    case Err(err) => Err(err)
    case Ok(ttl) => if PositiveTtl(ttl) then Ok(NewEntry(e.value, ttl, now)) else Err(InvalidTtl)
  }

  /** The same when the clock stands still in between. */
  function FillEntry(c: Clamp, e: Entry, now: Time): Result<Entry> {
    FillFrom(c, e, now, now)
  }

  /** The bulk reads test for None, so a cached empty dict is a hit for them. */
  predicate NeedsFill<K>(s: Tiers<K>, k: K, now: Time) {
    Live(s.cache, k, now).None? && Live(s.primary, k, now).Some?
  }

  predicate FillsFail<K>(c: Clamp, s: Tiers<K>, keys: seq<K>, now: Time) {
    exists k | k in keys :: NeedsFill(s, k, now) && FillEntry(c, s.primary[k], now).Err?
  }

  /** Exactly the distinct keys that are live in the primary and not in the cache are filled. */
  function Filled<K>(c: Clamp, s: Tiers<K>, keys: seq<K>, now: Time): Table<K>
    requires !FillsFail(c, s, keys, now)
  {
    s.cache + map k | k in keys && NeedsFill(s, k, now) :: FillEntry(c, s.primary[k], now).value
  }

  function Served<K>(s: Tiers<K>, k: K, now: Time): Reading {
    if Live(s.cache, k, now).Some? then TtlOne(s.cache, k, now, now) else TtlOne(s.primary, k, now, now)
  }

  function ServedAll<K>(s: Tiers<K>, keys: seq<K>, now: Time): seq<Reading> {
    seq(|keys|, i requires 0 <= i < |keys| => Served(s, keys[i], now))
  }

  function ValuesOf(readings: seq<Reading>): seq<Option<Dict>> {
    seq(|readings|, i requires 0 <= i < |readings| => readings[i].value)
  }

  function BulkThrough<K>(c: Clamp, s: Tiers<K>, keys: seq<K>, now: Time, reply: Reply): Outcome<Tiers<K>> {
    if FillsFail(c, s, keys, now) then Outcome(s, Raised(InvalidTtl))
    else Outcome(s.(cache := Filled(c, s, keys, now)), reply)
  }

  // ----- All eight operations -----

  /** Writes drop the keys from the cache first, even when the primary then raises. */
  function WriteThrough<K>(s: Tiers<K>, cache: Table<K>, write: Outcome<Table<K>>): Outcome<Tiers<K>> {
    Outcome(Tiers(write.state, cache), write.reply)
  }

  function Through<K>(c: Clamp, s: Tiers<K>, call: Call<K>, now: Time): Outcome<Tiers<K>> {
    match call
    case Get(k) => GetThrough(c, s, k, now)
    case Ttl(k) => TtlThrough(c, s, k, now)
    case GetMany(ks) => BulkThrough(c, s, ks, now, GotMany(ValuesOf(ServedAll(s, ks, now))))
    case TtlMany(ks) => BulkThrough(c, s, ks, now, ReadMany(ServedAll(s, ks, now)))
    case Put(k, _, _) => WriteThrough(s, s.cache - {k}, Step(s.primary, call, now))
    case Delete(k) => WriteThrough(s, s.cache - {k}, Step(s.primary, call, now))
    case PutMany(ks, _, _) => WriteThrough(s, DeleteAll(s.cache, ks), Step(s.primary, call, now))
    case DeleteMany(ks) => WriteThrough(s, DeleteAll(s.cache, ks), Step(s.primary, call, now))
  }

  lemma DeletedThrough<K>(c: Clamp, s: Tiers<K>, keys: seq<K>, now: Time)
    ensures Through(c, s, DeleteMany(keys), now)
         == WriteThrough(s, DeleteAll(s.cache, keys), Step(s.primary, DeleteMany(keys), now))
  {
  }

  /** A bounded cache store may lose any of its entries between two calls. */
  function Evict<K>(s: Tiers<K>, dropped: set<K>): Tiers<K> {
    s.(cache := s.cache - dropped)
  }

  /** The tiers after a run in which the cache loses `drops[i]` before the i-th call. */
  function TiersAfter<K>(c: Clamp, s: Tiers<K>, run: seq<Timed<K>>, drops: seq<set<K>>): Tiers<K>
    requires |run| == |drops|
  {
    if run == [] then s
    else
      var n := |run| - 1;
      Through(c, Evict(TiersAfter(c, s, run[..n], drops[..n]), drops[n]), run[n].call, run[n].now).state
  }

  function ThroughReplyAt<K>(c: Clamp, s: Tiers<K>, run: seq<Timed<K>>, drops: seq<set<K>>, i: nat): Reply
    requires i < |run| == |drops|
  {
    Through(c, Evict(TiersAfter(c, s, run[..i], drops[..i]), drops[i]), run[i].call, run[i].now).reply
  }

  lemma ThroughOn<K>(c: Clamp, s: Tiers<K>, run: seq<Timed<K>>, drops: seq<set<K>>, n: nat)
    requires 0 < n <= |run| == |drops|
    ensures TiersAfter(c, s, run[..n], drops[..n])
         == Through(c, Evict(TiersAfter(c, s, run[..n - 1], drops[..n - 1]), drops[n - 1]),
                    run[n - 1].call, run[n - 1].now).state
  {
    assert run[..n][..n - 1] == run[..n - 1] && drops[..n][..n - 1] == drops[..n - 1];
  }

  // ----- What a fill stores -----

  predicate Positive(c: Clamp) {
    c.minTtl == 0.0 && c.maxTtl > 0.0 && c.missingTtl.Some? && c.missingTtl.value > 0.0
  }

  /** The limit that an argument of the constructor stands for: half an hour for None and 0. */
  predicate IsLimit(given: Option<real>, limit: real) {
    if given.None? || given.value == 0.0 then limit == 1800.0 else limit == given.value
  }

  lemma ClampInNumbers(maximumTtl: Option<real>, missingTtl: Option<real>, m: real, n: real)
    requires IsLimit(maximumTtl, m) && IsLimit(missingTtl, n)
    ensures CacheClamp(maximumTtl, missingTtl) == Clamp(0.0, m, Some(n))
  {
  }

  /** A fill from an entry that had not expired when it was checked, at or after the reading,
      succeeds exactly when its limit is positive: maximum_ttl, m, for an entry that expires,
      missing_ttl, n, for one that does not. However much later the fill is made, it keeps the
      value and expires the remaining time when read or m after the fill, whichever is less, or
      n after it. */
  lemma FillMeaning(
      maximumTtl: Option<real>, missingTtl: Option<real>, m: real, n: real,
      e: Entry, read: Time, checked: Time, now: Time)
    requires IsLimit(maximumTtl, m) && IsLimit(missingTtl, n)
    requires read <= checked && !ExpiredAt(e.expires, checked)
    ensures
      var fill := FillFrom(CacheClamp(maximumTtl, missingTtl), e, read, now);
      var limit := if e.expires.Some? then m else n;
      var ttl := if e.expires.Some? && e.expires.value - read < limit then e.expires.value - read else limit;
      && (fill.Ok? <==> limit > 0.0)
      && (fill.Ok? ==> fill.value == Entry(e.value, Some(now), Some(now + ttl)))
  {
  }

  /** Limits a caller may pass: a negative one would make the fills raise. */
  predicate LimitsNotNegative(maximumTtl: Option<real>, missingTtl: Option<real>) {
    !(maximumTtl.Some? && maximumTtl.value < 0.0) && !(missingTtl.Some? && missingTtl.value < 0.0)
  }

  /** The clamp is positive exactly when neither limit was given as a negative number. */
  lemma PositiveUnlessNegative(maximumTtl: Option<real>, missingTtl: Option<real>)
    ensures Positive(CacheClamp(maximumTtl, missingTtl)) <==> LimitsNotNegative(maximumTtl, missingTtl)
  {
  }
}
