/** What the operations of an ideal, non-evicting store mean, as functions of its table.
    Everything is generic in the key type, so that the same meaning serves a store whose
    keys are (collection, key) slots and a wrapper that places such slots elsewhere. */
module KeyValue {
  import opened Prelude
  import opened TimeToLive
  import opened ManagedEntries

  /** A key within a collection. */
  datatype Slot = Slot(collection: string, key: string)

  /** What a store keeps for a key: the TTL itself is not kept, only the expiry. */
  datatype Entry = Entry(value: Dict, created: Option<Time>, expires: Option<Time>)

  type Table<K> = map<K, Entry>

  /** The answer of `ttl`: (value, seconds left), (None, None) for a missing or expired key. */
  datatype Reading = Reading(value: Option<Dict>, ttl: Option<real>)

  const MISSING := Reading(None, None)

  // ----- Single operations -----

  function Live<K>(t: Table<K>, k: K, now: Time): Option<Entry> {
    if k in t && !ExpiredAt(t[k].expires, now) then Some(t[k]) else None
  }

  function GetOne<K>(t: Table<K>, k: K, now: Time): Option<Dict> {
    match Live(t, k, now)
    case None => None
    case Some(e) => Some(e.value)
  }

  /** The entry is rebuilt at `built`, which fixes the TTL, its expiry checked at `checked`. */
  function ReadEntry(e: Entry, built: Time): Reading {
    Reading(Some(e.value), if e.expires.Some? then Some(e.expires.value - built) else None)
  }

  function TtlOne<K>(t: Table<K>, k: K, built: Time, checked: Time): Reading {
    match Live(t, k, checked)
    case None => MISSING
    case Some(e) => ReadEntry(e, built)
  }

  function NewEntry(value: Dict, ttl: Option<real>, now: Time): Entry {
    Entry(value, Some(now), if ttl.Some? then Some(now + ttl.value) else None)
  }

  function PutOne<K>(t: Table<K>, k: K, value: Dict, ttl: Option<real>, now: Time): Result<Table<K>> {
    match ValidateTtl(ttl)
    case Err(e) => Err(e)
    case Ok(valid) => Ok(t[k := NewEntry(value, valid, now)])
  }

  // ----- Bulk operations -----

  function GetAll<K>(t: Table<K>, keys: seq<K>, now: Time): seq<Option<Dict>> {
    seq(|keys|, i requires 0 <= i < |keys| => GetOne(t, keys[i], now))
  }

  function TtlAll<K>(t: Table<K>, keys: seq<K>, built: Time, checked: Time): seq<Reading> {
    seq(|keys|, i requires 0 <= i < |keys| => TtlOne(t, keys[i], built, checked))
  }

  function PutAll<K>(t: Table<K>, keys: seq<K>, entries: seq<Entry>): Table<K>
    requires |keys| == |entries|
  {
    if keys == [] then t
    else
      var n := |keys| - 1;
      PutAll(t, keys[..n], entries[..n])[keys[n] := entries[n]]
  }

  function NewEntries(values: seq<Dict>, ttls: seq<Option<real>>, now: Time): seq<Entry>
    requires |values| == |ttls|
  {
    seq(|values|, i requires 0 <= i < |values| => NewEntry(values[i], ttls[i], now))
  }

  function PutBulk<K>(t: Table<K>, keys: seq<K>, values: seq<Dict>, ttl: TtlArg, now: Time): Result<Table<K>> {
    if |keys| != |values| then Err(CountMismatch)
    else if ttl.List? && ttl.ts != [] && |ttl.ts| != |keys| then Err(CountMismatch)
    else
      PrepareTtlsOutcome(ttl, |keys|);
      match PrepareTtls(ttl, |keys|)
      case Err(e) => Err(e)
      case Ok(ttls) => Ok(PutAll(t, keys, NewEntries(values, ttls, now)))
  }

  function DeleteAll<K>(t: Table<K>, keys: seq<K>): Table<K> {
    if keys == [] then t
    else
      var n := |keys| - 1;
      DeleteAll(t, keys[..n]) - {keys[n]}
  }

  // ----- Bulk operations under a clock that moves -----

  /** The clock reading that a bulk operation makes for the entry at a position. */
  type Clock = nat -> Time

  function StillAt(now: Time): Clock {
    i => now
  }

  function GetEach<K>(t: Table<K>, keys: seq<K>, clock: Clock): seq<Option<Dict>> {
    seq(|keys|, i requires 0 <= i < |keys| => GetOne(t, keys[i], clock(i)))
  }

  function TtlEach<K>(t: Table<K>, keys: seq<K>, built: Clock, checked: Clock): seq<Reading> {
    seq(|keys|, i requires 0 <= i < |keys| => TtlOne(t, keys[i], built(i), checked(i)))
  }

  function NewEach(values: seq<Dict>, ttls: seq<Option<real>>, clock: Clock): seq<Entry>
    requires |values| == |ttls|
  {
    seq(|values|, i requires 0 <= i < |values| => NewEntry(values[i], ttls[i], clock(i)))
  }

  function PutEach<K>(t: Table<K>, keys: seq<K>, values: seq<Dict>, ttl: TtlArg, clock: Clock): Result<Table<K>> {
    if |keys| != |values| then Err(CountMismatch)
    else if ttl.List? && ttl.ts != [] && |ttl.ts| != |keys| then Err(CountMismatch)
    else
      PrepareTtlsOutcome(ttl, |keys|);
      match PrepareTtls(ttl, |keys|)
      case Err(e) => Err(e)
      case Ok(ttls) => Ok(PutAll(t, keys, NewEach(values, ttls, clock)))
  }

  /** With a clock that stands still they are the operations above. */
  lemma StandingStill<K>(t: Table<K>, keys: seq<K>, values: seq<Dict>, ttl: TtlArg, now: Time)
    ensures GetEach(t, keys, StillAt(now)) == GetAll(t, keys, now)
    ensures TtlEach(t, keys, StillAt(now), StillAt(now)) == TtlAll(t, keys, now, now)
    ensures PutEach(t, keys, values, ttl, StillAt(now)) == PutBulk(t, keys, values, ttl, now)
  {
    PrepareTtlsOutcome(ttl, |keys|);
    var ttls := PrepareTtls(ttl, |keys|);
    if |keys| == |values| && ttls.Ok? {
      assert NewEach(values, ttls.value, StillAt(now)) == NewEntries(values, ttls.value, now);
    }
  }

  // ----- Calls, replies and runs -----

  datatype Call<K> =
    | Get(key: K)
    | GetMany(keys: seq<K>)
    | Ttl(key: K)
    | TtlMany(keys: seq<K>)
    | Put(key: K, value: Dict, ttl: Option<real>)
    | PutMany(keys: seq<K>, values: seq<Dict>, ttls: TtlArg)
    | Delete(key: K)
    | DeleteMany(keys: seq<K>)

  datatype Reply =
    | Got(value: Option<Dict>)
    | GotMany(values: seq<Option<Dict>>)
    | Read(reading: Reading)
    | ReadMany(readings: seq<Reading>)
    | Stored
    | Deleted(existed: bool)
    | DeletedMany(count: int)
    | Raised(error: Error)

  datatype Outcome<S> = Outcome(state: S, reply: Reply)

  function StoredOrRaised<K>(t: Table<K>, r: Result<Table<K>>): Outcome<Table<K>> {
    match r
    case Ok(t') => Outcome(t', Stored)
    case Err(e) => Outcome(t, Raised(e))
  }

  /** One call on the store, with a clock that stands still during the call. */
  function Step<K>(t: Table<K>, call: Call<K>, now: Time): Outcome<Table<K>> {
    match call
    case Get(k) => Outcome(t, Got(GetOne(t, k, now)))
    case GetMany(ks) => Outcome(t, GotMany(GetAll(t, ks, now)))
    case Ttl(k) => Outcome(t, Read(TtlOne(t, k, now, now)))
    case TtlMany(ks) => Outcome(t, ReadMany(TtlAll(t, ks, now, now)))
    case Put(k, v, ttl) => StoredOrRaised(t, PutOne(t, k, v, ttl, now))
    case PutMany(ks, vs, ttls) => StoredOrRaised(t, PutBulk(t, ks, vs, ttls, now))
    case Delete(k) => Outcome(t - {k}, Deleted(k in t))
    case DeleteMany(ks) => Outcome(DeleteAll(t, ks), DeletedMany(|t| - |DeleteAll(t, ks)|))
  }

  /** A run: calls made one at a time, each with the clock reading it sees. */
  datatype Timed<K> = Timed(now: Time, call: Call<K>)

  predicate ClockRuns<K>(run: seq<Timed<K>>) {
    forall i, j | 0 <= i <= j < |run| :: run[i].now <= run[j].now
  }

  function TableAfter<K>(t: Table<K>, run: seq<Timed<K>>): Table<K> {
    if run == [] then t
    else
      var n := |run| - 1;
      Step(TableAfter(t, run[..n]), run[n].call, run[n].now).state
  }

  /** The reply of the i-th call of the run. */
  function ReplyAt<K>(t: Table<K>, run: seq<Timed<K>>, i: nat): Reply
    requires i < |run|
  {
    Step(TableAfter(t, run[..i]), run[i].call, run[i].now).reply
  }

  /** The table after n calls is one step on from the table after n - 1. */
  lemma StepOn<K>(t: Table<K>, run: seq<Timed<K>>, n: nat)
    requires 0 < n <= |run|
    ensures TableAfter(t, run[..n]) == Step(TableAfter(t, run[..n - 1]), run[n - 1].call, run[n - 1].now).state
  {
    assert run[..n][..n - 1] == run[..n - 1];
  }

  lemma RemovalSize<K>(t: Table<K>, k: K)
    ensures |t - {k}| == |t| - if k in t then 1 else 0
  {
    assert (t - {k}).Keys == t.Keys - {k};
    assert |(t - {k}).Keys| == |t - {k}|;
  }
}
