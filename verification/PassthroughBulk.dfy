/** The bulk reads of the two-tier store against its single reads at the same instant. */
module PassthroughBulk {
  import opened Prelude
  import opened TimeToLive
  import opened KeyValue
  import opened TtlClamps
  import opened PassthroughSpec

  lemma PositiveFills<K>(c: Clamp, s: Tiers<K>, keys: seq<K>, now: Time)
    requires Positive(c)
    ensures !FillsFail(c, s, keys, now)
  {
  }

  /** Position by position, and with repeated keys, get_many answers what single gets from
      the same state answer, exactly when the value it serves is not the empty dict: a
      single get never serves that. */
  lemma GetManyMatchesGets<K>(c: Clamp, s: Tiers<K>, keys: seq<K>, i: nat, now: Time)
    requires Positive(c) && i < |keys|
    ensures
      var many := Through(c, s, GetMany(keys), now).reply;
      && many.GotMany? && |many.values| == |keys|
      && (Through(c, s, Get(keys[i]), now).reply == Got(many.values[i]) <==> many.values[i] != Some(EMPTY_DICT))
  {
    PositiveFills(c, s, keys, now);
  }

  /** The same for ttl_many and single ttls, value and TTL alike. */
  lemma TtlManyMatchesTtls<K>(c: Clamp, s: Tiers<K>, keys: seq<K>, i: nat, now: Time)
    requires Positive(c) && i < |keys|
    ensures
      var many := Through(c, s, TtlMany(keys), now).reply;
      && many.ReadMany? && |many.readings| == |keys|
      && (Through(c, s, Ttl(keys[i]), now).reply == Read(many.readings[i])
          <==> many.readings[i].value != Some(EMPTY_DICT))
  {
    PositiveFills(c, s, keys, now);
  }

  // ----- The cache that is left behind -----

  /** A single read fills the cache for this key. */
  predicate SingleFills<K>(s: Tiers<K>, k: K, now: Time) {
    !Truthy(GetOne(s.cache, k, now)) && Truthy(GetOne(s.primary, k, now))
  }

  function SingleFillEntries<K>(c: Clamp, s: Tiers<K>, keys: seq<K>, now: Time): Table<K>
    requires Positive(c)
  {
    map k | k in keys && SingleFills(s, k, now) :: FillEntry(c, s.primary[k], now).value
  }

  function SingleFilled<K>(c: Clamp, s: Tiers<K>, keys: seq<K>, now: Time): Table<K>
    requires Positive(c)
  {
    s.cache + SingleFillEntries(c, s, keys, now)
  }

  /** A read of k on one tier meets the empty dict while the other tier makes a bulk read and
      a single read treat the key differently. */
  predicate MeetsEmptyDict<K>(s: Tiers<K>, k: K, now: Time) {
    || (GetOne(s.cache, k, now) == None && GetOne(s.primary, k, now) == Some(EMPTY_DICT))
    || (GetOne(s.cache, k, now) == Some(EMPTY_DICT) && Truthy(GetOne(s.primary, k, now)))
  }

  function Reads<K>(keys: seq<K>, now: Time, withTtl: bool): seq<Timed<K>> {
    seq(|keys|, i requires 0 <= i < |keys| => Timed(now, if withTtl then Ttl(keys[i]) else Get(keys[i])))
  }

  function NoDrops<K>(n: nat): seq<set<K>> {
    seq(n, i => {})
  }

  /** What a single read does to the tiers. */
  function AfterRead<K>(c: Clamp, s: Tiers<K>, k: K, now: Time): Tiers<K>
    requires Positive(c)
  {
    if SingleFills(s, k, now) then s.(cache := s.cache[k := FillEntry(c, s.primary[k], now).value]) else s
  }

  lemma OneRead<K>(c: Clamp, s: Tiers<K>, k: K, now: Time)
    requires Positive(c)
    ensures GetThrough(c, s, k, now).state == AfterRead(c, s, k, now)
    ensures TtlThrough(c, s, k, now).state == AfterRead(c, s, k, now)
  {
  }

  lemma OverlayGrows<K, V>(m: map<K, V>, a: map<K, V>, b: map<K, V>, k: K, v: V)
    requires b == a[k := v]
    ensures m + b == (m + a)[k := v]
  {
  }

  /** Once filled, a key is a hit; until then its cell is the original one. */
  lemma FillsOnce<K>(c: Clamp, s: Tiers<K>, keys: seq<K>, k: K, now: Time)
    requires Positive(c)
    ensures SingleFills(s.(cache := SingleFilled(c, s, keys, now)), k, now) == (SingleFills(s, k, now) && k !in keys)
  {
    var before := SingleFilled(c, s, keys, now);
    if k in keys && SingleFills(s, k, now) {
      assert before[k] == FillEntry(c, s.primary[k], now).value;
    } else {
      assert Live(before, k, now) == Live(s.cache, k, now);
    }
  }

  lemma EntriesGrow<K>(c: Clamp, s: Tiers<K>, keys: seq<K>, k: K, now: Time)
    requires Positive(c)
    ensures SingleFillEntries(c, s, keys + [k], now) ==
      if SingleFills(s, k, now) && k !in keys
      then SingleFillEntries(c, s, keys, now)[k := FillEntry(c, s.primary[k], now).value]
      else SingleFillEntries(c, s, keys, now)
  {
  }

  /** Reading one more key of the list extends what was filled so far, at most by that key. */
  lemma ReadExtendsFilled<K>(c: Clamp, s: Tiers<K>, keys: seq<K>, k: K, now: Time)
    requires Positive(c)
    ensures AfterRead(c, s.(cache := SingleFilled(c, s, keys, now)), k, now)
         == s.(cache := SingleFilled(c, s, keys + [k], now))
  {
    FillsOnce(c, s, keys, k, now);
    EntriesGrow(c, s, keys, k, now);
    if SingleFills(s, k, now) && k !in keys {
      OverlayGrows(s.cache, SingleFillEntries(c, s, keys, now), SingleFillEntries(c, s, keys + [k], now),
                   k, FillEntry(c, s.primary[k], now).value);
    }
  }

  lemma ReadStep<K>(c: Clamp, s: Tiers<K>, k: K, now: Time, withTtl: bool)
    requires Positive(c)
    ensures Through(c, Evict(s, {}), if withTtl then Ttl(k) else Get(k), now).state == AfterRead(c, s, k, now)
  {
    assert Evict(s, {}) == s;
    OneRead(c, s, k, now);
  }

  lemma {:induction false} ReadsSoFar<K>(c: Clamp, s: Tiers<K>, keys: seq<K>, n: nat, now: Time, withTtl: bool)
    requires Positive(c) && n <= |keys|
    ensures TiersAfter(c, s, Reads(keys, now, withTtl)[..n], NoDrops(|keys|)[..n])
         == s.(cache := SingleFilled(c, s, keys[..n], now))
  {
    if n == 0 {
      assert SingleFilled(c, s, keys[..0], now) == s.cache;
    } else {
      ReadsSoFar(c, s, keys, n - 1, now, withTtl);
      ThroughOn(c, s, Reads(keys, now, withTtl), NoDrops(|keys|), n);
      ReadStep(c, s.(cache := SingleFilled(c, s, keys[..n - 1], now)), keys[n - 1], now, withTtl);
      ReadExtendsFilled(c, s, keys[..n - 1], keys[n - 1], now);
      assert keys[..n] == keys[..n - 1] + [keys[n - 1]];
    }
  }

  lemma FillsDiffer<K>(c: Clamp, s: Tiers<K>, keys: seq<K>, k: K, now: Time)
    requires Positive(c) && k in keys && MeetsEmptyDict(s, k, now)
    ensures !FillsFail(c, s, keys, now) && Filled(c, s, keys, now) != SingleFilled(c, s, keys, now)
  {
    PositiveFills(c, s, keys, now);
    var bulk, single := Filled(c, s, keys, now), SingleFilled(c, s, keys, now);
    assert NeedsFill(s, k, now) != SingleFills(s, k, now);
    assert GetOne(bulk, k, now) != GetOne(single, k, now);
  }

  lemma FillsAgree<K>(c: Clamp, s: Tiers<K>, keys: seq<K>, now: Time)
    requires Positive(c) && forall k | k in keys :: !MeetsEmptyDict(s, k, now)
    ensures !FillsFail(c, s, keys, now) && Filled(c, s, keys, now) == SingleFilled(c, s, keys, now)
  {
    PositiveFills(c, s, keys, now);
    forall k | k in keys ensures NeedsFill(s, k, now) == SingleFills(s, k, now) {
      assert !MeetsEmptyDict(s, k, now);
    }
  }

  /** A bulk read leaves both tiers as the single reads made in order leave them, exactly
      when none of its keys meets the empty dict. This holds for get_many against gets and
      for ttl_many against ttls. */
  lemma BulkReadsFillLikeSingleReads<K>(c: Clamp, s: Tiers<K>, keys: seq<K>, now: Time, withTtl: bool)
    requires Positive(c)
    ensures
      Through(c, s, if withTtl then TtlMany(keys) else GetMany(keys), now).state
        == TiersAfter(c, s, Reads(keys, now, withTtl), NoDrops(|keys|))
      <==> forall k | k in keys :: !MeetsEmptyDict(s, k, now)
  {
    PositiveFills(c, s, keys, now);
    ReadsSoFar(c, s, keys, |keys|, now, withTtl);
    assert keys[..|keys|] == keys;
    assert Reads(keys, now, withTtl)[..|keys|] == Reads(keys, now, withTtl);
    assert NoDrops<K>(|keys|)[..|keys|] == NoDrops<K>(|keys|);
    if k :| k in keys && MeetsEmptyDict(s, k, now) {
      FillsDiffer(c, s, keys, k, now);
    } else {
      FillsAgree(c, s, keys, now);
    }
  }

  // ----- Replies, in order -----

  /** The i-th of the single reads made in order sees what the earlier ones have filled. */
  lemma ReadInOrder<K>(c: Clamp, s: Tiers<K>, keys: seq<K>, i: nat, now: Time, withTtl: bool)
    requires Positive(c) && i < |keys|
    ensures ThroughReplyAt(c, s, Reads(keys, now, withTtl), NoDrops(|keys|), i)
         == Through(c, s.(cache := SingleFilled(c, s, keys[..i], now)),
                    if withTtl then Ttl(keys[i]) else Get(keys[i]), now).reply
  {
    ReadsSoFar(c, s, keys, i, now, withTtl);
    var before := s.(cache := SingleFilled(c, s, keys[..i], now));
    assert Evict(before, {}) == before;
  }

  /** A single read of this key before position i has filled it. */
  predicate FilledBefore<K>(s: Tiers<K>, keys: seq<K>, i: nat, now: Time)
    requires i < |keys|
  {
    keys[i] in keys[..i] && SingleFills(s, keys[i], now)
  }

  lemma CellInOrder<K>(c: Clamp, s: Tiers<K>, keys: seq<K>, i: nat, now: Time)
    requires Positive(c) && i < |keys|
    ensures
      var cache := SingleFilled(c, s, keys[..i], now);
      if FilledBefore(s, keys, i, now)
      then keys[i] in cache && cache[keys[i]] == FillEntry(c, s.primary[keys[i]], now).value
      else Live(cache, keys[i], now) == Live(s.cache, keys[i], now)
  {
    var fills := SingleFillEntries(c, s, keys[..i], now);
    assert keys[i] in fills <==> FilledBefore(s, keys, i, now);
  }

  /** What the cache reports for an entry it was just filled with from e. */
  function ReportedAfterFill(c: Clamp, e: Entry, now: Time): real
    requires Positive(c)
  {
    if e.expires.Some? then Min(e.expires.value - now, c.maxTtl) else c.missingTtl.value
  }

  lemma ReadingAfterFill<K>(c: Clamp, s: Tiers<K>, k: K, now: Time)
    requires Positive(c) && SingleFills(s, k, now)
    ensures FillEntry(c, s.primary[k], now).Ok?
    ensures TtlThrough(c, s.(cache := s.cache[k := FillEntry(c, s.primary[k], now).value]), k, now).reply
         == Read(Reading(Some(s.primary[k].value), Some(ReportedAfterFill(c, s.primary[k], now))))
  {
  }

  /** Of the cache a single ttl looks only at the cell of its own key. */
  lemma OnlyOwnCell<K>(c: Clamp, s: Tiers<K>, cache: Table<K>, k: K, now: Time)
    requires Live(cache, k, now) == Live(s.cache, k, now)
    ensures TtlThrough(c, s.(cache := cache), k, now).reply == TtlThrough(c, s, k, now).reply
    ensures GetThrough(c, s.(cache := cache), k, now).reply == GetThrough(c, s, k, now).reply
  {
  }

  /** get_many answers, position by position, as its single gets made in order answer, exactly
      where the value it serves is not the empty dict. */
  lemma GetManyMatchesGetsInOrder<K>(c: Clamp, s: Tiers<K>, keys: seq<K>, i: nat, now: Time)
    requires Positive(c) && i < |keys|
    ensures
      var many := Through(c, s, GetMany(keys), now).reply;
      && many.GotMany? && |many.values| == |keys|
      && (ThroughReplyAt(c, s, Reads(keys, now, false), NoDrops(|keys|), i) == Got(many.values[i])
          <==> many.values[i] != Some(EMPTY_DICT))
  {
    ReadInOrder(c, s, keys, i, now, false);
    CellInOrder(c, s, keys, i, now);
    GetManyMatchesGets(c, s, keys, i, now);
    if !FilledBefore(s, keys, i, now) {
      OnlyOwnCell(c, s, SingleFilled(c, s, keys[..i], now), keys[i], now);
    }
  }

  /** ttl_many answers as its single ttls made in order answer, exactly where the value is not
      the empty dict and the key was not filled by an earlier one of them, or was filled
      without its TTL changing: its TTL is not above maximum_ttl. An entry without an expiry
      is first reported without a TTL and then, out of the cache, with missing_ttl. */
  lemma TtlManyMatchesTtlsInOrder<K>(c: Clamp, s: Tiers<K>, keys: seq<K>, i: nat, now: Time)
    requires Positive(c) && i < |keys|
    ensures
      var many := Through(c, s, TtlMany(keys), now).reply;
      && many.ReadMany? && |many.readings| == |keys|
      && (ThroughReplyAt(c, s, Reads(keys, now, true), NoDrops(|keys|), i) == Read(many.readings[i])
          <==> && many.readings[i].value != Some(EMPTY_DICT)
               && (FilledBefore(s, keys, i, now) ==>
                     many.readings[i].ttl.Some? && many.readings[i].ttl.value <= c.maxTtl))
  {
    ReadInOrder(c, s, keys, i, now, true);
    CellInOrder(c, s, keys, i, now);
    TtlManyMatchesTtls(c, s, keys, i, now);
    var cache := SingleFilled(c, s, keys[..i], now);
    if FilledBefore(s, keys, i, now) {
      ReadingAfterFill(c, s, keys[i], now);
      SameCellSameReading(c, s, cache, keys[i], now);
    } else {
      OnlyOwnCell(c, s, cache, keys[i], now);
    }
  }

  lemma SameCellSameReading<K>(c: Clamp, s: Tiers<K>, cache: Table<K>, k: K, now: Time)
    requires Positive(c) && SingleFills(s, k, now)
    requires FillEntry(c, s.primary[k], now).Ok?
    requires k in cache && cache[k] == FillEntry(c, s.primary[k], now).value
    ensures TtlThrough(c, s.(cache := cache), k, now).reply
         == TtlThrough(c, s.(cache := s.cache[k := FillEntry(c, s.primary[k], now).value]), k, now).reply
  {
    var filled := s.(cache := s.cache[k := FillEntry(c, s.primary[k], now).value]);
    OnlyOwnCell(c, filled, cache, k, now);
  }
}
