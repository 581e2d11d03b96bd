/** On every run of calls made one at a time, the two-tier store refines its bare primary. */
module PassthroughRefinement {
  import opened Prelude
  import opened TimeToLive
  import opened ManagedEntries
  import opened KeyValue
  import opened BulkOperations
  import opened TtlClamps
  import opened PassthroughSpec

  // ----- What the cache is allowed to hold -----

  /** `copy` may stand in for `original`: same value, gone no later. */
  predicate Covers(original: Entry, copy: Entry) {
    && copy.value == original.value
    && copy.expires.Some?
    && (original.expires.Some? ==> copy.expires.value <= original.expires.value)
  }

  ghost predicate CoherentAt<K>(s: Tiers<K>, k: K, now: Time) {
    Live(s.cache, k, now).Some? ==> Live(s.primary, k, now).Some? && Covers(s.primary[k], s.cache[k])
  }

  /** Every live cached entry holds the primary's current value and expires no later. */
  ghost predicate Coherent<K>(s: Tiers<K>, now: Time) {
    forall k | k in s.cache :: CoherentAt(s, k, now)
  }

  // ----- How the replies relate -----

  /** A single read takes the empty dict for a missing value. */
  function AsSingle(v: Option<Dict>): Option<Dict> {
    if Truthy(v) then v else None
  }

  /** The value agrees; the TTL is positive and no longer than the primary's, and only a
      cached answer has one where the primary has none. */
  predicate ReadingRefines(bare: Reading, through: Reading) {
    && through.value == bare.value
    && (bare.value.None? ==> through.ttl.None?)
    && (bare.ttl.Some? ==> through.ttl.Some? && through.ttl.value <= bare.ttl.value)
    && (through.ttl.Some? ==> through.ttl.value > 0.0)
  }

  ghost predicate ReplyRefines(bare: Reply, through: Reply) {
    match bare
    case Got(v) => through == Got(AsSingle(v))
    case Read(r) => through.Read? && ReadingRefines(if Truthy(r.value) then r else MISSING, through.reading)
    case ReadMany(rs) =>
      && through.ReadMany? && |through.readings| == |rs|
      && forall i | 0 <= i < |rs| :: ReadingRefines(rs[i], through.readings[i])
    case _ => through == bare
  }

  // ----- One call -----

  lemma FilledIsCovered(c: Clamp, e: Entry, now: Time)
    requires Positive(c) && !ExpiredAt(e.expires, now)
    ensures FillEntry(c, e, now).Ok? && Covers(e, FillEntry(c, e, now).value)
  {
  }

  lemma CachedReading<K>(s: Tiers<K>, k: K, now: Time)
    requires Coherent(s, now)
    ensures ReadingRefines(TtlOne(s.primary, k, now, now), Served(s, k, now))
  {
    assert k in s.cache ==> CoherentAt(s, k, now);
  }

  lemma SingleReads<K>(c: Clamp, s: Tiers<K>, k: K, now: Time)
    requires Positive(c) && Coherent(s, now)
    ensures
      var o := GetThrough(c, s, k, now);
      && o.state.primary == s.primary && Coherent(o.state, now)
      && o.reply == Got(AsSingle(GetOne(s.primary, k, now)))
    ensures
      var o := TtlThrough(c, s, k, now);
      && o.state.primary == s.primary && Coherent(o.state, now)
      && o.reply.Read?
      && ReadingRefines(
           if Truthy(GetOne(s.primary, k, now)) then TtlOne(s.primary, k, now, now) else MISSING, o.reply.reading)
  {
    assert k in s.cache ==> CoherentAt(s, k, now);
    if Live(s.primary, k, now).Some? {
      FilledIsCovered(c, s.primary[k], now);
      var filled := s.(cache := s.cache[k := FillEntry(c, s.primary[k], now).value]);
      assert Coherent(filled, now) by {
        forall k' | k' in filled.cache ensures CoherentAt(filled, k', now) {
          assert k' != k ==> CoherentAt(s, k', now);
        }
      }
    }
  }

  lemma BulkReads<K>(c: Clamp, s: Tiers<K>, keys: seq<K>, now: Time)
    requires Positive(c) && Coherent(s, now)
    ensures !FillsFail(c, s, keys, now)
    ensures Coherent(s.(cache := Filled(c, s, keys, now)), now)
    ensures forall i | 0 <= i < |keys| ::
      ReadingRefines(TtlOne(s.primary, keys[i], now, now), ServedAll(s, keys, now)[i])
  {
    forall k | k in keys && NeedsFill(s, k, now)
      ensures FillEntry(c, s.primary[k], now).Ok? && Covers(s.primary[k], FillEntry(c, s.primary[k], now).value)
    {
      FilledIsCovered(c, s.primary[k], now);
    }
    var filled := s.(cache := Filled(c, s, keys, now));
    forall k | k in filled.cache ensures CoherentAt(filled, k, now) {
      assert k in s.cache ==> CoherentAt(s, k, now);
    }
    forall i | 0 <= i < |keys|
      ensures ReadingRefines(TtlOne(s.primary, keys[i], now, now), ServedAll(s, keys, now)[i])
    {
      CachedReading(s, keys[i], now);
    }
  }

  /** A write keeps coherence when it touches the primary at most at keys it drops from the cache. */
  lemma WritesKeepCoherence<K>(s: Tiers<K>, after: Tiers<K>, now: Time)
    requires Coherent(s, now)
    requires forall k | k in after.cache :: k in s.cache && after.cache[k] == s.cache[k]
    requires forall k | k in after.cache ::
      (k in after.primary <==> k in s.primary) && (k in s.primary ==> after.primary[k] == s.primary[k])
    ensures Coherent(after, now)
  {
    forall k | k in after.cache ensures CoherentAt(after, k, now) {
      assert CoherentAt(s, k, now);
    }
  }

  lemma SingleWrites<K>(c: Clamp, s: Tiers<K>, call: Call<K>, now: Time)
    requires Coherent(s, now) && (call.Put? || call.Delete?)
    ensures Coherent(Through(c, s, call, now).state, now)
  {
    WritesKeepCoherence(s, Through(c, s, call, now).state, now);
  }

  lemma BulkPut<K>(s: Tiers<K>, keys: seq<K>, values: seq<Dict>, ttl: TtlArg, now: Time)
    requires Coherent(s, now)
    ensures Coherent(Tiers(Step(s.primary, PutMany(keys, values, ttl), now).state, DeleteAll(s.cache, keys)), now)
  {
    var after := Tiers(Step(s.primary, PutMany(keys, values, ttl), now).state, DeleteAll(s.cache, keys));
    DeleteAllCells(s.cache, keys);
    match PutBulk(s.primary, keys, values, ttl, now)
    case Err(_) =>
      WritesKeepCoherence(s, after, now);
    case Ok(_) =>
      PrepareTtlsOutcome(ttl, |keys|);
      LastDuplicateWins(s.primary, keys, NewEntries(values, PrepareTtls(ttl, |keys|).value, now));
      WritesKeepCoherence(s, after, now);
  }

  lemma BulkDelete<K>(s: Tiers<K>, keys: seq<K>, now: Time)
    requires Coherent(s, now)
    ensures Coherent(Tiers(DeleteAll(s.primary, keys), DeleteAll(s.cache, keys)), now)
  {
    DeleteAllCells(s.cache, keys);
    DeleteAllCells(s.primary, keys);
    WritesKeepCoherence(s, Tiers(DeleteAll(s.primary, keys), DeleteAll(s.cache, keys)), now);
  }

  lemma BulkValues<K>(c: Clamp, s: Tiers<K>, keys: seq<K>, now: Time)
    requires Positive(c) && Coherent(s, now)
    ensures ValuesOf(ServedAll(s, keys, now)) == GetAll(s.primary, keys, now)
  {
    BulkReads(c, s, keys, now);
  }

  /** What a call through the cache owes its caller. */
  ghost predicate Refines<K>(c: Clamp, s: Tiers<K>, call: Call<K>, now: Time) {
    && Through(c, s, call, now).state.primary == Step(s.primary, call, now).state
    && Coherent(Through(c, s, call, now).state, now)
    && ReplyRefines(Step(s.primary, call, now).reply, Through(c, s, call, now).reply)
  }

  lemma ReadRefines<K>(c: Clamp, s: Tiers<K>, call: Call<K>, now: Time)
    requires Positive(c) && Coherent(s, now) && (call.Get? || call.Ttl? || call.GetMany? || call.TtlMany?)
    ensures Refines(c, s, call, now)
  {
    match call
    case Get(k) => SingleReads(c, s, k, now);
    case Ttl(k) => SingleReads(c, s, k, now);
    case GetMany(ks) => BulkReads(c, s, ks, now); BulkValues(c, s, ks, now);
    case TtlMany(ks) => BulkReads(c, s, ks, now);
    case _ =>
  }

  lemma WriteRefines<K>(c: Clamp, s: Tiers<K>, call: Call<K>, now: Time)
    requires Coherent(s, now) && (call.Put? || call.Delete? || call.PutMany? || call.DeleteMany?)
    ensures Refines(c, s, call, now)
  {
    match call
    case PutMany(ks, vs, ttls) => BulkPut(s, ks, vs, ttls, now);
    case DeleteMany(ks) => BulkDelete(s, ks, now);
    case _ => SingleWrites(c, s, call, now);
  }

  /** One call through the cache does to the primary what the bare call does, keeps the
      cache coherent, and answers as the bare call does up to `ReplyRefines`. */
  lemma CallRefines<K>(c: Clamp, s: Tiers<K>, call: Call<K>, now: Time)
    requires Positive(c) && Coherent(s, now)
    ensures Refines(c, s, call, now)
  {
    if call.Get? || call.Ttl? || call.GetMany? || call.TtlMany? {
      ReadRefines(c, s, call, now);
    } else {
      WriteRefines(c, s, call, now);
    }
  }

  // ----- Whole runs -----

  lemma CoherenceLasts<K>(s: Tiers<K>, now: Time, later: Time, dropped: set<K>)
    requires Coherent(s, now) && now <= later
    ensures Coherent(Evict(s, dropped), later)
  {
    forall k | k in Evict(s, dropped).cache ensures CoherentAt(Evict(s, dropped), k, later) {
      assert CoherentAt(s, k, now);
    }
  }

  /** Along a run the primary is exactly the bare store's table and the cache stays coherent. */
  lemma {:induction false} RunKeepsCoherence<K>(
      c: Clamp, s: Tiers<K>, run: seq<Timed<K>>, drops: seq<set<K>>, n: nat, now: Time)
    requires Positive(c) && ClockRuns(run) && 0 < n <= |run| == |drops|
    requires Coherent(s, run[0].now) && run[n - 1].now <= now
    ensures TiersAfter(c, s, run[..n], drops[..n]).primary == TableAfter(s.primary, run[..n])
    ensures Coherent(TiersAfter(c, s, run[..n], drops[..n]), now)
  {
    var at := run[n - 1].now;
    if n > 1 {
      RunKeepsCoherence(c, s, run, drops, n - 1, at);
    }
    var before := TiersAfter(c, s, run[..n - 1], drops[..n - 1]);
    CoherenceLasts(before, at, at, drops[n - 1]);
    CallRefines(c, Evict(before, drops[n - 1]), run[n - 1].call, at);
    StepOn(s.primary, run, n);
    ThroughOn(c, s, run, drops, n);
    NothingEvicted(TiersAfter(c, s, run[..n], drops[..n]), at, now);
  }

  lemma NothingEvicted<K>(s: Tiers<K>, now: Time, later: Time)
    requires Coherent(s, now) && now <= later
    ensures Coherent(s, later)
  {
    CoherenceLasts(s, now, later, {});
    assert Evict(s, {}) == s;
  }

  /** On every run, from an empty cache that may lose entries at any time, every call is
      answered as by the bare primary: writes, deletes and bulk values are equal; a single
      read differs only in taking the empty dict for missing; TTLs are positive and at most
      the primary's. Every live cached entry holds the primary's current value and expires
      no later. */
  lemma CachedStoreRefinesPrimary<K>(
      maximumTtl: Option<real>, missingTtl: Option<real>,
      primary: Table<K>, run: seq<Timed<K>>, drops: seq<set<K>>, i: nat)
    requires ClockRuns(run) && i < |run| == |drops| && LimitsNotNegative(maximumTtl, missingTtl)
    ensures
      var c := CacheClamp(maximumTtl, missingTtl);
      var s := Tiers(primary, map[]);
      && TiersAfter(c, s, run[..i + 1], drops[..i + 1]).primary == TableAfter(primary, run[..i + 1])
      && Coherent(TiersAfter(c, s, run[..i + 1], drops[..i + 1]), run[i].now)
      && ReplyRefines(ReplyAt(primary, run, i), ThroughReplyAt(c, s, run, drops, i))
  {
    var c := CacheClamp(maximumTtl, missingTtl);
    var s := Tiers(primary, map[]);
    if i > 0 {
      RunKeepsCoherence(c, s, run, drops, i, run[i].now);
    }
    RunKeepsCoherence(c, s, run, drops, i + 1, run[i].now);
    var before := TiersAfter(c, s, run[..i], drops[..i]);
    CoherenceLasts(before, run[i].now, run[i].now, drops[i]);
    CallRefines(c, Evict(before, drops[i]), run[i].call, run[i].now);
  }

  /** `get` through the cache equals the primary's `get` exactly when the primary does not
      hold an empty dict there. */
  lemma GetMatchesUnlessEmptyDict<K>(
      maximumTtl: Option<real>, missingTtl: Option<real>,
      primary: Table<K>, run: seq<Timed<K>>, drops: seq<set<K>>, i: nat)
    requires ClockRuns(run) && i < |run| == |drops| && LimitsNotNegative(maximumTtl, missingTtl)
    requires run[i].call.Get?
    ensures
      var c := CacheClamp(maximumTtl, missingTtl);
      ThroughReplyAt(c, Tiers(primary, map[]), run, drops, i) == ReplyAt(primary, run, i)
      <==> GetOne(TableAfter(primary, run[..i]), run[i].call.key, run[i].now) != Some(EMPTY_DICT)
  {
    CachedStoreRefinesPrimary(maximumTtl, missingTtl, primary, run, drops, i);
  }

  // ----- The limits matter -----

  /** Every call of every run from an empty cache is answered as by the bare primary. */
  ghost predicate AlwaysRefines(maximumTtl: Option<real>, missingTtl: Option<real>) {
    forall primary: Table<Slot>, run: seq<Timed<Slot>>, drops: seq<set<Slot>>, i: nat
      | ClockRuns(run) && i < |run| == |drops|
      :: ReplyRefines(ReplyAt(primary, run, i),
                      ThroughReplyAt(CacheClamp(maximumTtl, missingTtl), Tiers(primary, map[]), run, drops, i))
  }

  /** With a negative limit the first read of a key raises. */
  lemma NegativeLimitRaises(maximumTtl: Option<real>, missingTtl: Option<real>, k: Slot, v: Dict)
    requires !LimitsNotNegative(maximumTtl, missingTtl) && v != EMPTY_DICT
    ensures
      var negativeMaximum := maximumTtl.Some? && maximumTtl.value < 0.0;
      var primary := map[k := Entry(v, None, if negativeMaximum then Some(1.0) else None)];
      && Through(CacheClamp(maximumTtl, missingTtl), Tiers(primary, map[]), Get(k), 0.0).reply == Raised(InvalidTtl)
      && Step(primary, Get(k), 0.0).reply == Got(Some(v))
  {
  }

  lemma FirstCall<K>(c: Clamp, primary: Table<K>, call: Call<K>, now: Time)
    ensures ReplyAt(primary, [Timed(now, call)], 0) == Step(primary, call, now).reply
    ensures ThroughReplyAt(c, Tiers(primary, map[]), [Timed(now, call)], [{}], 0)
         == Through(c, Tiers(primary, map[]), call, now).reply
  {
    var s: Tiers<K> := Tiers(primary, map[]);
    assert Evict(s, {}) == s;
  }

  /** The cached store refines its primary on all runs exactly when neither limit is negative. */
  lemma AlwaysRefinesIff(maximumTtl: Option<real>, missingTtl: Option<real>)
    ensures AlwaysRefines(maximumTtl, missingTtl) <==> LimitsNotNegative(maximumTtl, missingTtl)
  {
    if LimitsNotNegative(maximumTtl, missingTtl) {
      forall primary: Table<Slot>, run: seq<Timed<Slot>>, drops: seq<set<Slot>>, i: nat
        | ClockRuns(run) && i < |run| == |drops|
        ensures ReplyRefines(ReplyAt(primary, run, i),
                             ThroughReplyAt(CacheClamp(maximumTtl, missingTtl), Tiers(primary, map[]), run, drops, i))
      {
        CachedStoreRefinesPrimary(maximumTtl, missingTtl, primary, run, drops, i);
      }
    } else {
      var k, v: Dict := Slot("c", "k"), map["x" := Null];
      assert "x" in v;
      var negativeMaximum := maximumTtl.Some? && maximumTtl.value < 0.0;
      var primary := map[k := Entry(v, None, if negativeMaximum then Some(1.0) else None)];
      NegativeLimitRaises(maximumTtl, missingTtl, k, v);
      FirstCall(CacheClamp(maximumTtl, missingTtl), primary, Get(k), 0.0);
      assert ClockRuns([Timed(0.0, Call<Slot>.Get(k))]);
    }
  }
}
