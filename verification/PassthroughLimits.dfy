/** The two limits in the replies of a cached store: what a read has put into the cache is what
    later reads report, for exactly as long as the limits say, whatever becomes of the primary. */
module PassthroughLimits {
  import opened Prelude
  import opened TimeToLive
  import opened KeyValue
  import opened BulkOperations
  import opened TtlClamps
  import opened PassthroughSpec

  /** When the copy of an entry made at `now` is gone: the time it has left, m at most, or n if it
      never expires. */
  function GoneAt(m: real, n: real, e: Entry, now: Time): Time {
    if e.expires.None? then now + n
    else if e.expires.value < now + m then e.expires.value
    else now + m
  }

  /** Reads of k through the two tables are answered with the value and the time left until it is
      gone, and after that as if the cache did not have k. */
  ghost predicate ServesUntil<K(!new)>(c: Clamp, s: Tiers<K>, k: K, v: Dict, gone: Time) {
    forall later: Time ::
      if later < gone then
        && Through(c, s, Get(k), later).reply == Got(Some(v))
        && Through(c, s, Ttl(k), later).reply == Read(Reading(Some(v), Some(gone - later)))
      else
        && Through(c, s, Get(k), later).reply == Through(c, Tiers(s.primary, s.cache - {k}), Get(k), later).reply
        && Through(c, s, Ttl(k), later).reply == Through(c, Tiers(s.primary, s.cache - {k}), Ttl(k), later).reply
  }

  /** A read that asks for k alone, or among others. */
  predicate Reads<K(==)>(call: Call<K>, k: K) {
    match call
    case Get(key) => key == k
    case Ttl(key) => key == k
    case GetMany(keys) => k in keys
    case TtlMany(keys) => k in keys
    case _ => false
  }

  lemma CachedServes<K(!new)>(c: Clamp, s: Tiers<K>, k: K, e: Entry)
    requires k in s.cache && s.cache[k] == e && e.expires.Some? && e.value != EMPTY_DICT
    ensures ServesUntil(c, s, k, e.value, e.expires.value)
  {
  }

  lemma ReadFills<K>(m: real, n: real, s: Tiers<K>, call: Call<K>, k: K, now: Time)
    requires m > 0.0 && n > 0.0 && Reads(call, k)
    requires Live(s.cache, k, now).None? && Live(s.primary, k, now).Some? && s.primary[k].value != EMPTY_DICT
    ensures
      var after := Through(Clamp(0.0, m, Some(n)), s, call, now).state;
      && after.primary == s.primary && k in after.cache
      && after.cache[k] == Entry(s.primary[k].value, Some(now), Some(GoneAt(m, n, s.primary[k], now)))
  {
    var c := Clamp(0.0, m, Some(n));
    FillMeaning(Some(m), Some(n), m, n, s.primary[k], now, now, now);
    if call.GetMany? || call.TtlMany? {
      NothingFails(m, n, s, call.keys, now);
      assert NeedsFill(s, k, now);
    }
  }

  lemma NothingFails<K>(m: real, n: real, s: Tiers<K>, keys: seq<K>, now: Time)
    requires m > 0.0 && n > 0.0
    ensures !FillsFail(Clamp(0.0, m, Some(n)), s, keys, now)
  {
    forall k | k in keys && NeedsFill(s, k, now) ensures FillEntry(Clamp(0.0, m, Some(n)), s.primary[k], now).Ok? {
      FillMeaning(Some(m), Some(n), m, n, s.primary[k], now, now, now);
    }
  }

  /** With maximum_ttl m and missing_ttl n, a read of a key that is missing from the cache and live
      in the primary makes later reads of it answer with that value, until min(remaining, m) after
      the read, or n after it for an entry without expiry, and not a moment longer. That is so
      whatever the primary holds by then: it is not asked in between. */
  lemma ReadsAreServedUntil<K(!new)>(
      maximumTtl: Option<real>, missingTtl: Option<real>, m: real, n: real,
      s: Tiers<K>, call: Call<K>, k: K, now: Time, primary: Table<K>)
    requires IsLimit(maximumTtl, m) && IsLimit(missingTtl, n) && m > 0.0 && n > 0.0
    requires Reads(call, k)
    requires Live(s.cache, k, now).None? && Live(s.primary, k, now).Some? && s.primary[k].value != EMPTY_DICT
    ensures
      var c := CacheClamp(maximumTtl, missingTtl);
      var cache := Through(c, s, call, now).state.cache;
      ServesUntil(c, Tiers(primary, cache), k, s.primary[k].value, GoneAt(m, n, s.primary[k], now))
  {
    ClampInNumbers(maximumTtl, missingTtl, m, n);
    var c := Clamp(0.0, m, Some(n));
    ReadFills(m, n, s, call, k, now);
    var cache := Through(c, s, call, now).state.cache;
    CachedServes(c, Tiers(primary, cache), k, cache[k]);
  }

  /** A read leaves the primary as it is, and in the cache every key that it finds live there or
      does not ask for. */
  lemma HitsStay<K>(c: Clamp, s: Tiers<K>, call: Call<K>, k: K, now: Time)
    requires call.Get? || call.Ttl? || call.GetMany? || call.TtlMany?
    requires !Reads(call, k) || (Live(s.cache, k, now).Some? && s.cache[k].value != EMPTY_DICT)
    ensures
      var after := Through(c, s, call, now).state;
      && after.primary == s.primary
      && (k in after.cache <==> k in s.cache) && (k in s.cache ==> after.cache[k] == s.cache[k])
  {
  }

  // ----- What raises, and what writes do -----

  /** The table has a value for k that this kind of read takes. */
  predicate Gives<K>(t: Table<K>, k: K, single: bool, now: Time) {
    Live(t, k, now).Some? && (single ==> t[k].value != EMPTY_DICT)
  }

  predicate IsRead<K>(call: Call<K>) {
    call.Get? || call.Ttl? || call.GetMany? || call.TtlMany?
  }

  /** The call asks the primary for k, which answers, and the copy would be gone at once: the limit
      that it falls under is not positive. */
  predicate CannotFill<K>(m: real, n: real, s: Tiers<K>, call: Call<K>, k: K, now: Time) {
    var single := call.Get? || call.Ttl?;
    && Reads(call, k) && !Gives(s.cache, k, single, now) && Gives(s.primary, k, single, now)
    && if s.primary[k].expires.None? then n <= 0.0 else m <= 0.0
  }

  ghost predicate FillsKnown<K>(c: Clamp, m: real, n: real, s: Tiers<K>, now: Time) {
    forall k | k in s.primary && Live(s.primary, k, now).Some? ::
      (FillEntry(c, s.primary[k], now).Err? <==> if s.primary[k].expires.None? then n <= 0.0 else m <= 0.0)
      && (FillEntry(c, s.primary[k], now).Err? ==> FillEntry(c, s.primary[k], now) == Err(InvalidTtl))
  }

  lemma SingleReadRaises<K>(c: Clamp, m: real, n: real, s: Tiers<K>, call: Call<K>, now: Time)
    requires FillsKnown(c, m, n, s, now) && (call.Get? || call.Ttl?)
    ensures Through(c, s, call, now).reply.Raised? <==> CannotFill(m, n, s, call, call.key, now)
    ensures Through(c, s, call, now).reply.Raised? ==> Through(c, s, call, now) == Outcome(s, Raised(InvalidTtl))
  {
    var k := call.key;
    if Live(s.primary, k, now).Some? {
      assert ClampedPut(c, s.cache, k, s.primary[k].value, ReadEntry(s.primary[k], now).ttl, now).Err?
        <==> FillEntry(c, s.primary[k], now).Err?;
    }
  }

  lemma BulkReadRaises<K(!new)>(c: Clamp, m: real, n: real, s: Tiers<K>, call: Call<K>, now: Time)
    requires FillsKnown(c, m, n, s, now) && (call.GetMany? || call.TtlMany?)
    ensures Through(c, s, call, now).reply.Raised? <==> exists k :: CannotFill(m, n, s, call, k, now)
    ensures Through(c, s, call, now).reply.Raised? ==> Through(c, s, call, now) == Outcome(s, Raised(InvalidTtl))
  {
    forall k | k in call.keys
      ensures NeedsFill(s, k, now) && FillEntry(c, s.primary[k], now).Err? <==> CannotFill(m, n, s, call, k, now)
    {
    }
    if k :| CannotFill(m, n, s, call, k, now) {
      assert k in call.keys;
    }
  }

  /** A read raises exactly when it would have to fill the cache with an entry whose limit is not
      positive, single or among others, and then leaves both tables as they were. */
  lemma ReadsRaiseIff<K(!new)>(
      maximumTtl: Option<real>, missingTtl: Option<real>, m: real, n: real, s: Tiers<K>, call: Call<K>, now: Time)
    requires IsLimit(maximumTtl, m) && IsLimit(missingTtl, n) && IsRead(call)
    ensures
      var outcome := Through(CacheClamp(maximumTtl, missingTtl), s, call, now);
      && (outcome.reply.Raised? <==> exists k :: CannotFill(m, n, s, call, k, now))
      && (outcome.reply.Raised? ==> outcome == Outcome(s, Raised(InvalidTtl)))
  {
    var c := CacheClamp(maximumTtl, missingTtl);
    forall k | k in s.primary && Live(s.primary, k, now).Some?
      ensures FillEntry(c, s.primary[k], now).Err? <==> if s.primary[k].expires.None? then n <= 0.0 else m <= 0.0
      ensures FillEntry(c, s.primary[k], now).Err? ==> FillEntry(c, s.primary[k], now) == Err(InvalidTtl)
    {
      FillMeaning(maximumTtl, missingTtl, m, n, s.primary[k], now, now, now);
    }
    if call.Get? || call.Ttl? {
      SingleReadRaises(c, m, n, s, call, now);
      OnlyKey(m, n, s, call, now);
    } else {
      BulkReadRaises(c, m, n, s, call, now);
    }
  }

  lemma OnlyKey<K(!new)>(m: real, n: real, s: Tiers<K>, call: Call<K>, now: Time)
    requires call.Get? || call.Ttl?
    ensures (exists k :: CannotFill(m, n, s, call, k, now)) <==> CannotFill(m, n, s, call, call.key, now)
  {
  }

  /** Keys that a write names. */
  predicate WritesTo<K(==)>(call: Call<K>, k: K) {
    match call
    case Put(key, _, _) => key == k
    case Delete(key) => key == k
    case PutMany(keys, _, _) => k in keys
    case DeleteMany(keys) => k in keys
    case _ => false
  }

  /** A write does to the primary what the bare call does, with its reply, and takes exactly the keys
      it names out of the cache, also when it raises. */
  lemma WritesDrop<K>(c: Clamp, s: Tiers<K>, call: Call<K>, now: Time, k: K)
    requires !IsRead(call)
    ensures
      var outcome := Through(c, s, call, now);
      && outcome.reply == Step(s.primary, call, now).reply
      && outcome.state.primary == Step(s.primary, call, now).state
      && (k in outcome.state.cache <==> k in s.cache && !WritesTo(call, k))
      && (k in outcome.state.cache ==> outcome.state.cache[k] == s.cache[k])
  {
    match call
    case PutMany(keys, _, _) => DeleteAllCells(s.cache, keys);
    case DeleteMany(keys) => DeleteAllCells(s.cache, keys);
    case _ =>
  }
}
