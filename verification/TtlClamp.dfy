/** wrappers/ttl_clamp/wrapper.py: bounds the TTL of everything put through it. */
module TtlClamps {
  import opened Prelude
  import opened TimeToLive
  import opened KeyValue
  import opened BaseStores
  import opened ReplyLaws

  datatype Clamp = Clamp(minTtl: real, maxTtl: real, missingTtl: Option<real>)

  function Min(a: real, b: real): real { if b < a then b else a }

  function Max(a: real, b: real): real { if b > a then b else a }

  function Distance(a: real, b: real): real { if a < b then b - a else a - b }

  /** `_ttl_clamp`: a missing TTL becomes `missingTtl`, which is not bounded by `maxTtl`. */
  function ClampTtl(c: Clamp, ttl: Option<real>): Result<Option<real>> {
    if ttl.None? then Ok(c.missingTtl)
    else if !PositiveTtl(ttl) then Err(InvalidTtl)
    else Ok(Some(Max(c.minTtl, Min(ttl.value, c.maxTtl))))
  }

  function ClampEach(c: Clamp, ts: seq<Option<real>>): Result<seq<Option<real>>> {
    if ts == [] then Ok([])
    else
      match ClampTtl(c, ts[0])
      case Err(e) => Err(e)
      case Ok(t) =>
        match ClampEach(c, ts[1..])
        case Err(e) => Err(e)
        case Ok(rest) => Ok([t] + rest)
  }

  /** put_many clamps numbers and lists; None is passed on as None. */
  function ClampArg(c: Clamp, ttl: TtlArg): Result<TtlArg> {
    match ttl
    case NoTtl => Ok(NoTtl)
    case Scalar(t) =>
      (match ClampTtl(c, Some(t))
       case Err(e) => Err(e)
       case Ok(clamped) => Ok(if clamped.Some? then Scalar(clamped.value) else NoTtl))
    case List(ts) =>
      match ClampEach(c, ts)
      case Err(e) => Err(e)
      case Ok(clamped) => Ok(List(clamped))
  }

  function ClampedPut<K>(c: Clamp, t: Table<K>, k: K, value: Dict, ttl: Option<real>, now: Time): Result<Table<K>> {
    match ClampTtl(c, ttl)
    case Err(e) => Err(e)
    case Ok(clamped) => PutOne(t, k, value, clamped, now)
  }

  function ClampedPutBulk<K>(c: Clamp, t: Table<K>, keys: seq<K>, values: seq<Dict>, ttl: TtlArg, now: Time)
    : Result<Table<K>>
  {
    match ClampArg(c, ttl)
    case Err(e) => Err(e)
    case Ok(clamped) => PutBulk(t, keys, values, clamped, now)
  }

  /** A given TTL comes out as the nearest one within the bounds; should they cross, the lower
      bound wins. */
  lemma ClampMeaning(c: Clamp, ttl: real)
    ensures ClampTtl(c, Some(ttl)).Ok? <==> ttl > 0.0
    ensures ttl > 0.0 ==>
      exists r ::
        && ClampTtl(c, Some(ttl)) == Ok(Some(r))
        && (c.minTtl > c.maxTtl ==> r == c.minTtl)
        && (c.minTtl <= c.maxTtl ==> c.minTtl <= r <= c.maxTtl)
        && (forall x | c.minTtl <= x <= c.maxTtl :: Distance(ttl, r) <= Distance(ttl, x))
  {
    if ttl > 0.0 {
      var r := Max(c.minTtl, Min(ttl, c.maxTtl));
      assert ClampTtl(c, Some(ttl)) == Ok(Some(r));
      assert forall x | c.minTtl <= x <= c.maxTtl :: Distance(ttl, r) <= Distance(ttl, x);
    }
  }

  /** The list form clamps position by position and raises on the first invalid TTL. */
  lemma {:induction false} ClampEachOutcome(c: Clamp, ts: seq<Option<real>>)
    ensures
      var r := ClampEach(c, ts);
      if exists i | 0 <= i < |ts| :: !PositiveTtl(ts[i]) then r == Err(InvalidTtl)
      else r.Ok? && |r.value| == |ts| && forall i | 0 <= i < |ts| :: ClampTtl(c, ts[i]) == Ok(r.value[i])
  {
    if ts != [] {
      ClampEachOutcome(c, ts[1..]);
      if i :| 0 < i < |ts| && !PositiveTtl(ts[i]) {
        assert ts[1..][i - 1] == ts[i];
      }
    }
  }

  /** r is ttl where the bounds allow it, and else the bound that is in its way. */
  predicate InBounds(c: Clamp, ttl: real, r: real) {
    && (c.minTtl <= ttl <= c.maxTtl ==> r == ttl)
    && (ttl < c.minTtl <= c.maxTtl ==> r == c.minTtl)
    && (c.minTtl <= c.maxTtl < ttl ==> r == c.maxTtl)
    && (c.minTtl > c.maxTtl ==> r == c.minTtl)
  }

  /** The TTL with which the clamp answers a given or missing one. */
  predicate ClampsTo(c: Clamp, ttl: Option<real>, r: Option<real>) {
    if ttl.None? then r == c.missingTtl else r.Some? && InBounds(c, ttl.value, r.value)
  }

  /** When put_many's TTL argument can be clamped, and what each of its forms becomes: None stays
      None, a number must be positive, and so must every number in a list, where None stands for
      the configured TTL. */
  lemma ClampArgOutcome(c: Clamp, ttl: TtlArg)
    ensures ttl.NoTtl? ==> ClampArg(c, ttl) == Ok(NoTtl)
    ensures ttl.Scalar? ==>
      var r := ClampArg(c, ttl);
      if ttl.t <= 0.0 then r == Err(InvalidTtl) else r.Ok? && r.value.Scalar? && InBounds(c, ttl.t, r.value.t)
    ensures ttl.List? ==>
      var r := ClampArg(c, ttl);
      if exists i | 0 <= i < |ttl.ts| :: ttl.ts[i].Some? && ttl.ts[i].value <= 0.0 then r == Err(InvalidTtl)
      else
        && r.Ok? && r.value.List? && |r.value.ts| == |ttl.ts|
        && forall i | 0 <= i < |ttl.ts| :: ClampsTo(c, ttl.ts[i], r.value.ts[i])
  {
    if ttl.List? {
      ClampEachOutcome(c, ttl.ts);
      if i :| 0 <= i < |ttl.ts| && ttl.ts[i].Some? && ttl.ts[i].value <= 0.0 {
        assert !PositiveTtl(ttl.ts[i]);
      } else {
        assert forall i | 0 <= i < |ttl.ts| :: PositiveTtl(ttl.ts[i]);
      }
    }
  }

  /** A put through the clamp succeeds exactly when the TTL that was asked for and the one that the
      clamp answers with are None or positive; reads then report the value with the latter. */
  lemma ClampedPutThenRead<K>(
      c: Clamp, t: Table<K>, k: K, v: Dict, ttl: Option<real>, r: Option<real>, now: Time, later: Time)
    requires ClampsTo(c, ttl, r)
    ensures ClampedPut(c, t, k, v, ttl, now).Ok? <==> PositiveTtl(ttl) && PositiveTtl(r)
    ensures ClampedPut(c, t, k, v, ttl, now).Ok? ==>
      var after := ClampedPut(c, t, k, v, ttl, now).value;
      && Step(after, Ttl(k), later).reply == Read(Reported(v, r, now, later))
      && forall other | other != k :: ReadsAlike(t, after, other, later)
  {
    if PositiveTtl(ttl) {
      assert ClampTtl(c, ttl) == Ok(r);
      var put: Call<K> := Put(k, v, r);
      if Step(t, put, now).reply == Stored {
        PutThenRead(t, k, v, r, now, later);
        forall other | other != k ensures ReadsAlike(t, Step(t, put, now).state, other, later) {
          WriteLeavesOthers(t, put, now, other, later);
        }
      }
    }
  }

  /** After a bulk put through the clamp, each key is reported with what its last position asked
      for, and all other keys as before. Without any TTL none is applied. */
  lemma ClampedBulkThenRead<K>(
      c: Clamp, t: Table<K>, keys: seq<K>, values: seq<Dict>, ttl: TtlArg, now: Time, k: K, i: nat,
      r: Option<real>, later: Time)
    requires ClampedPutBulk(c, t, keys, values, ttl, now).Ok?
    requires ttl.List? ==> |ttl.ts| == |keys|
    requires i < |keys| ==> if ttl.NoTtl? then r.None? else ClampsTo(c, RequestedTtl(ttl, i), r)
    ensures
      var after := ClampedPutBulk(c, t, keys, values, ttl, now).value;
      && (k !in keys ==> ReadsAlike(t, after, k, later))
      && (LastAt(keys, k, i) ==>
            i < |values| && Step(after, Ttl(k), later).reply == Read(Reported(values[i], r, now, later)))
  {
    ClampArgOutcome(c, ttl);
    var asked := ClampArg(c, ttl).value;
    StandingStill(t, keys, values, asked, now);
    PutEachThenRead(t, keys, values, asked, StillAt(now), k, i, later);
  }

  /** A bulk put asks for every key the TTL that a single put of it would store, except
      when it is called with ttl=None while a missing TTL is configured: then the single
      put applies `missingTtl` and the bulk put leaves the entries without an expiry. */
  lemma BulkClampsLikeSingles(c: Clamp, ttl: TtlArg, count: nat)
    requires ttl.List? ==> |ttl.ts| == count
    requires ClampArg(c, ttl).Ok?
    ensures ClampArg(c, ttl).value.List? ==> |ClampArg(c, ttl).value.ts| == count
    ensures (forall i | 0 <= i < count ::
               ClampTtl(c, RequestedTtl(ttl, i)) == Ok(RequestedTtl(ClampArg(c, ttl).value, i)))
            <==> count == 0 || ttl != NoTtl || c.missingTtl.None?
  {
    if ttl.List? {
      ClampEachOutcome(c, ttl.ts);
    }
    if ttl == NoTtl && c.missingTtl.Some? && count > 0 {
      assert ClampTtl(c, RequestedTtl(ttl, 0)) != Ok(RequestedTtl(ClampArg(c, ttl).value, 0));
    }
  }

  class TtlClampWrapper {
    const store: Store
    const clamp: Clamp

    constructor (store: Store, minTtl: real, maxTtl: real, missingTtl: Option<real>)
      ensures this.store == store && clamp == Clamp(minTtl, maxTtl, missingTtl)
    {
      this.store := store;
      this.clamp := Clamp(minTtl, maxTtl, missingTtl);
    }

    method Put(key: string, value: Dict, collection: Option<string>, ttl: Option<real>, now: Time)
      returns (r: Result<()>)
      modifies store`data
      ensures match ClampedPut(clamp, old(store.data), store.SlotOf(collection, key), value, ttl, now)
              case Ok(after) => r.Ok? && store.data == after
              case Err(e) => r == Err(e) && store.data == old(store.data)
    {
      match ClampTtl(clamp, ttl) {
        case Err(e) =>
          return Err(e);
        case Ok(clamped) =>
          r := store.Put(key, value, collection, clamped, now);
      }
    }

    method PutMany(keys: seq<string>, values: seq<Dict>, collection: Option<string>, ttl: TtlArg, now: Time)
      returns (r: Result<()>)
      modifies store`data
      ensures match ClampedPutBulk(clamp, old(store.data), store.SlotsOf(collection, keys), values, ttl, now)
              case Ok(after) => r.Ok? && store.data == after
              case Err(e) => r == Err(e) && store.data == old(store.data)
    {
      match ClampArg(clamp, ttl) {
        case Err(e) =>
          return Err(e);
        case Ok(clamped) =>
          StandingStill(store.data, store.SlotsOf(collection, keys), values, clamped, now);
          r := store.PutMany(keys, values, collection, clamped, StillAt(now));
      }
    }
  }
}
