/** What callers of an ideal store are told, in terms of the calls they made before. */
module ReplyLaws {
  import opened Prelude
  import opened TimeToLive
  import opened KeyValue
  import opened BulkOperations

  // ----- One put -----

  /** A put is stored exactly when its TTL is None or positive, and raises otherwise. What is stored
      is the value with the time of the put and, with a TTL, the time at which that is over. */
  lemma PutReply<K>(t: Table<K>, k: K, v: Dict, ttl: Option<real>, now: Time)
    ensures Step(t, Put(k, v, ttl), now).reply
         == if ttl.None? || ttl.value > 0.0 then Stored else Raised(InvalidTtl)
    ensures ttl.None? ==> Step(t, Put(k, v, ttl), now).state == t[k := Entry(v, Some(now), None)]
    ensures ttl.Some? && ttl.value > 0.0 ==>
      Step(t, Put(k, v, ttl), now).state == t[k := Entry(v, Some(now), Some(now + ttl.value))]
    ensures ttl.Some? && ttl.value <= 0.0 ==> Step(t, Put(k, v, ttl), now).state == t
  {
  }

  /** What is reported of a value stored at `now` with a TTL: the value and the seconds left,
      until they are over; without a TTL, the value for ever. */
  function Reported(v: Dict, ttl: Option<real>, now: Time, later: Time): Reading {
    if ttl.None? then Reading(Some(v), None)
    else if later < now + ttl.value then Reading(Some(v), Some(now + ttl.value - later))
    else Reading(None, None)
  }

  /** Reads of the key after a put report it. */
  lemma PutThenRead<K>(t: Table<K>, k: K, v: Dict, ttl: Option<real>, now: Time, later: Time)
    requires Step(t, Put(k, v, ttl), now).reply == Stored
    ensures
      var after := Step(t, Put(k, v, ttl), now).state;
      && Step(after, Get(k), later).reply
         == Got(if ttl.None? || later < now + ttl.value then Some(v) else None)
      && Step(after, Ttl(k), later).reply == Read(Reported(v, ttl, now, later))
  {
  }

  /** The reads of k are answered alike. */
  predicate ReadsAlike<K>(t: Table<K>, t': Table<K>, k: K, now: Time) {
    && Step(t', Get(k), now).reply == Step(t, Get(k), now).reply
    && Step(t', Ttl(k), now).reply == Step(t, Ttl(k), now).reply
  }

  /** A single write changes what is read of its own key only. */
  lemma WriteLeavesOthers<K>(t: Table<K>, call: Call<K>, now: Time, other: K, later: Time)
    requires (call.Put? || call.Delete?) && other != call.key
    ensures ReadsAlike(t, Step(t, call, now).state, other, later)
  {
  }

  /** A deleted key is missing, and the reply says whether anything was stored, expired or not:
      whether there is a time at which the key would have been read. */
  lemma DeleteThenRead<K>(t: Table<K>, k: K, now: Time, later: Time)
    ensures
      var after := Step(t, Delete(k), now).state;
      Step(after, Get(k), later).reply == Got(None) && Step(after, Ttl(k), later).reply == Read(Reading(None, None))
    ensures Step(t, Delete(k), now).reply
         == Deleted(exists when: Time {:trigger GetOne(t, k, when)} :: GetOne(t, k, when).Some?)
  {
    if k in t {
      var when := if t[k].expires.Some? then t[k].expires.value - 1.0 else now;
      assert GetOne(t, k, when).Some?;
    }
  }

  // ----- Bulk calls -----

  /** i is the last position of k. */
  predicate LastAt<K(==)>(keys: seq<K>, k: K, i: nat) {
    i < |keys| && keys[i] == k && k !in keys[i + 1..]
  }

  lemma LastAtIsLast<K>(keys: seq<K>, k: K, i: nat)
    requires LastAt(keys, k, i)
    ensures k in keys && LastIndex(keys, k) == i
  {
    forall m | i < m < |keys| ensures keys[m] != k {
      assert keys[i + 1..][m - i - 1] == keys[m];
    }
  }

  /** However the clock moves during a bulk put, reads afterwards report for each key what its last
      position asked for, counted from the time at which that entry was made; all other keys read
      as before. */
  lemma PutEachThenRead<K>(
      t: Table<K>, keys: seq<K>, values: seq<Dict>, ttl: TtlArg, clock: Clock, k: K, i: nat, later: Time)
    requires PutEach(t, keys, values, ttl, clock).Ok?
    ensures |keys| == |values| && (ttl.List? ==> |ttl.ts| == |keys|)
    ensures k !in keys ==> ReadsAlike(t, PutEach(t, keys, values, ttl, clock).value, k, later)
    ensures LastAt(keys, k, i) ==>
      var after := PutEach(t, keys, values, ttl, clock).value;
      && Step(after, Ttl(k), later).reply == Read(Reported(values[i], RequestedTtl(ttl, i), clock(i), later))
      && Step(after, Get(k), later).reply == Got(Reported(values[i], RequestedTtl(ttl, i), clock(i), later).value)
  {
    PutEachSucceeds(t, keys, values, ttl, clock);
    PrepareTtlsOutcome(ttl, |keys|);
    var entries := NewEach(values, PrepareTtls(ttl, |keys|).value, clock);
    LastDuplicateWins(t, keys, entries);
    if LastAt(keys, k, i) {
      LastAtIsLast(keys, k, i);
    }
  }

  /** Bulk reads answer position by position what single reads answer. */
  lemma BulkReads<K>(t: Table<K>, keys: seq<K>, now: Time)
    ensures
      var got, read := Step(t, GetMany(keys), now).reply, Step(t, TtlMany(keys), now).reply;
      && got.GotMany? && |got.values| == |keys| && read.ReadMany? && |read.readings| == |keys|
      && forall i | 0 <= i < |keys| ::
        && Step(t, Get(keys[i]), now).reply == Got(got.values[i])
        && Step(t, Ttl(keys[i]), now).reply == Read(read.readings[i])
  {
  }

  /** After a bulk delete its keys are missing and all others read as before. */
  lemma DeleteManyThenRead<K>(t: Table<K>, keys: seq<K>, now: Time, k: K, later: Time)
    ensures
      var after := Step(t, DeleteMany(keys), now).state;
      if k in keys then Step(after, Get(k), later).reply == Got(None) && Step(after, Ttl(k), later).reply == Read(MISSING)
      else ReadsAlike(t, after, k, later)
  {
    DeleteAllCells(t, keys);
  }

  // ----- Whole runs -----

  /** The position whose value a call stores under k. */
  predicate StoresAt<K(==)>(call: Call<K>, k: K, i: nat) {
    match call
    case Put(key, _, ttl) => key == k && i == 0 && PositiveTtl(ttl)
    case PutMany(keys, values, ttl) => CountsFit(keys, values, ttl) && EveryTtlValid(ttl, |keys|) && LastAt(keys, k, i)
    case _ => false
  }

  function StoredValue<K(==)>(call: Call<K>, k: K, i: nat): Dict
    requires StoresAt(call, k, i)
  {
    if call.Put? then call.value else call.values[i]
  }

  function StoredTtl<K(==)>(call: Call<K>, k: K, i: nat): Option<real>
    requires StoresAt(call, k, i)
  {
    if call.Put? then call.ttl else RequestedTtl(call.ttls, i)
  }

  /** The call leaves k with another entry, or without one. */
  predicate Touches<K(==)>(call: Call<K>, k: K) {
    match call
    case Put(key, _, ttl) => key == k && PositiveTtl(ttl)
    case PutMany(keys, values, ttl) => CountsFit(keys, values, ttl) && EveryTtlValid(ttl, |keys|) && k in keys
    case Delete(key) => key == k
    case DeleteMany(keys) => k in keys
    case _ => false
  }

  /** The j-th call stored k, at its position i, and none of the calls up to the n-th touched k
      after that. */
  ghost predicate Stands<K>(run: seq<Timed<K>>, n: nat, k: K, j: nat, i: nat)
    requires n <= |run|
  {
    j < n && StoresAt(run[j].call, k, i) && forall m | j < m < n :: !Touches(run[m].call, k)
  }

  lemma LastPosition<K>(keys: seq<K>, k: K) returns (i: nat)
    requires k in keys
    ensures LastAt(keys, k, i)
  {
    i := LastIndex(keys, k);
  }

  /** What one call does to the cell of k. */
  lemma CellAfterCall<K>(t: Table<K>, call: Call<K>, now: Time, k: K)
    ensures !Touches(call, k) ==>
      (k in Step(t, call, now).state <==> k in t) && (k in t ==> Step(t, call, now).state[k] == t[k])
    ensures Touches(call, k) && (call.Delete? || call.DeleteMany?) ==> k !in Step(t, call, now).state
    ensures forall i: nat | StoresAt(call, k, i) ::
      && k in Step(t, call, now).state
      && Step(t, call, now).state[k] == NewEntry(StoredValue(call, k, i), StoredTtl(call, k, i), now)
  {
    match call
    case PutMany(keys, values, ttl) => BulkCellAfterCall(t, keys, values, ttl, now, k);
    case DeleteMany(keys) => DeleteAllCells(t, keys);
    case _ =>
  }

  lemma BulkCellAfterCall<K>(t: Table<K>, keys: seq<K>, values: seq<Dict>, ttl: TtlArg, now: Time, k: K)
    ensures
      var call := PutMany(keys, values, ttl);
      var after := Step(t, call, now).state;
      && (!Touches(call, k) ==> (k in after <==> k in t) && (k in t ==> after[k] == t[k]))
      && forall i: nat | StoresAt(call, k, i) ::
        k in after && after[k] == NewEntry(values[i], RequestedTtl(ttl, i), now)
  {
    var call := PutMany(keys, values, ttl);
    PutManyAllOrNothing(t, keys, values, ttl, now);
    if CountsFit(keys, values, ttl) && EveryTtlValid(ttl, |keys|) {
      PutEachSucceeds(t, keys, values, ttl, StillAt(now));
      StandingStill(t, keys, values, ttl, now);
      PrepareTtlsOutcome(ttl, |keys|);
      LastDuplicateWins(t, keys, NewEach(values, PrepareTtls(ttl, |keys|).value, StillAt(now)));
      forall i: nat | StoresAt(call, k, i) ensures k in keys && LastIndex(keys, k) == i {
        LastAtIsLast(keys, k, i);
      }
    }
  }

  /** The table has an entry for k exactly when some call stored one that still stands, and then it
      is that one. */
  ghost predicate CellAgrees<K>(run: seq<Timed<K>>, n: nat, k: K, t: Table<K>)
    requires n <= |run|
  {
    && (k in t ==> exists j: nat, i: nat :: Stands(run, n, k, j, i))
    && forall j: nat, i: nat | Stands(run, n, k, j, i) ::
      k in t && t[k] == NewEntry(StoredValue(run[j].call, k, i), StoredTtl(run[j].call, k, i), run[j].now)
  }

  lemma {:induction false} CellAfterRun<K>(run: seq<Timed<K>>, n: nat, k: K)
    requires n <= |run|
    ensures CellAgrees(run, n, k, TableAfter(map[], run[..n]))
  {
    if n > 0 {
      CellAfterRun(run, n - 1, k);
      StepOn(map[], run, n);
      if Touches(run[n - 1].call, k) {
        AgreesWhenTouched(run, n, k, TableAfter(map[], run[..n - 1]));
      } else {
        AgreesUntouched(run, n, k, TableAfter(map[], run[..n - 1]));
      }
    }
  }

  lemma AgreesWhenTouched<K>(run: seq<Timed<K>>, n: nat, k: K, t: Table<K>)
    requires 0 < n <= |run| && Touches(run[n - 1].call, k)
    ensures CellAgrees(run, n, k, Step(t, run[n - 1].call, run[n - 1].now).state)
  {
    var call := run[n - 1].call;
    CellAfterCall(t, call, run[n - 1].now, k);
    if call.Put? {
      assert Stands(run, n, k, n - 1, 0);
    } else if call.PutMany? {
      var i := LastPosition(call.keys, k);
      assert Stands(run, n, k, n - 1, i);
    }
  }

  lemma AgreesUntouched<K>(run: seq<Timed<K>>, n: nat, k: K, t: Table<K>)
    requires 0 < n <= |run| && !Touches(run[n - 1].call, k) && CellAgrees(run, n - 1, k, t)
    ensures CellAgrees(run, n, k, Step(t, run[n - 1].call, run[n - 1].now).state)
  {
    CellAfterCall(t, run[n - 1].call, run[n - 1].now, k);
    forall j: nat, i: nat ensures Stands(run, n, k, j, i) <==> Stands(run, n - 1, k, j, i) {
      StoringTouches(run[n - 1].call, k, i);
    }
    if k in t {
      var j: nat, i: nat :| Stands(run, n - 1, k, j, i);
      assert Stands(run, n, k, j, i);
    }
  }

  lemma StoringTouches<K>(call: Call<K>, k: K, i: nat)
    ensures StoresAt(call, k, i) ==> Touches(call, k)
  {
  }

  /** On every run from the empty store, whatever single and bulk calls it consists of, a read of
      k reports what was stored by the last call that touched k, counted from the time of that
      call, if that call was a put; a key that was never stored, or was deleted since, is missing.
      A delete says which of the two it met. */
  lemma ReadsReportTheLastPut<K>(run: seq<Timed<K>>, n: nat, k: K)
    requires n < |run|
    ensures forall j: nat, i: nat | Stands(run, n, k, j, i) ::
      var reported := Reported(StoredValue(run[j].call, k, i), StoredTtl(run[j].call, k, i), run[j].now, run[n].now);
      && (run[n].call == Get(k) ==> ReplyAt(map[], run, n) == Got(reported.value))
      && (run[n].call == Ttl(k) ==> ReplyAt(map[], run, n) == Read(reported))
    ensures (forall j: nat, i: nat :: !Stands(run, n, k, j, i)) ==>
      && (run[n].call == Get(k) ==> ReplyAt(map[], run, n) == Got(None))
      && (run[n].call == Ttl(k) ==> ReplyAt(map[], run, n) == Read(Reading(None, None)))
    ensures run[n].call == Delete(k) ==>
      ReplyAt(map[], run, n) == Deleted(exists j: nat, i: nat :: Stands(run, n, k, j, i))
  {
    CellAfterRun(run, n, k);
  }
}
