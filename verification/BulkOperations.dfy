/** Bulk operations mean what the single ones made in order mean. */
module BulkOperations {
  import opened Prelude
  import opened TimeToLive
  import opened KeyValue

  /** The single puts that a bulk put stands for, each at its own clock reading. */
  function Puts<K>(keys: seq<K>, values: seq<Dict>, ttl: TtlArg, clock: Clock): seq<Timed<K>>
    requires |keys| == |values| && (ttl.List? ==> |ttl.ts| == |keys|)
  {
    seq(|keys|, i requires 0 <= i < |keys| => Timed(clock(i), Put(keys[i], values[i], RequestedTtl(ttl, i))))
  }

  function Deletes<K>(keys: seq<K>, now: Time): seq<Timed<K>> {
    seq(|keys|, i requires 0 <= i < |keys| => Timed(now, Delete(keys[i])))
  }

  predicate EveryTtlValid(ttl: TtlArg, count: nat)
    requires ttl.List? ==> |ttl.ts| == count
  {
    forall i | 0 <= i < count :: PositiveTtl(RequestedTtl(ttl, i))
  }

  predicate CountsFit<K>(keys: seq<K>, values: seq<Dict>, ttl: TtlArg) {
    |keys| == |values| && (ttl.List? ==> |ttl.ts| == |keys|)
  }

  /** put_many stores everything or nothing: it succeeds exactly when the counts fit and
      every requested TTL is valid, and raises otherwise without storing any entry. */
  lemma PutManyAllOrNothing<K>(t: Table<K>, keys: seq<K>, values: seq<Dict>, ttl: TtlArg, now: Time)
    ensures
      var o := Step(t, PutMany(keys, values, ttl), now);
      && (o.reply == Stored <==> CountsFit(keys, values, ttl) && EveryTtlValid(ttl, |keys|))
      && (o.reply != Stored ==> o.reply.Raised? && o.state == t)
  {
    PrepareTtlsOutcome(ttl, |keys|);
  }

  /** However the clock moves, a bulk put succeeds exactly when the counts fit and every TTL is
      valid, and then leaves the table that its puts leave when made in order, each at the time
      at which its entry was made; all of those succeed. */
  lemma PutEachIsPutsInOrder<K>(t: Table<K>, keys: seq<K>, values: seq<Dict>, ttl: TtlArg, clock: Clock)
    ensures PutEach(t, keys, values, ttl, clock).Ok? <==> CountsFit(keys, values, ttl) && EveryTtlValid(ttl, |keys|)
    ensures PutEach(t, keys, values, ttl, clock).Ok? ==>
      && PutEach(t, keys, values, ttl, clock).value == TableAfter(t, Puts(keys, values, ttl, clock))
      && forall i | 0 <= i < |keys| :: ReplyAt(t, Puts(keys, values, ttl, clock), i) == Stored
  {
    PutEachSucceeds(t, keys, values, ttl, clock);
    if CountsFit(keys, values, ttl) && EveryTtlValid(ttl, |keys|) {
      PutsShape(keys, values, ttl, clock);
      PutsInOrder(t, keys, NewEach(values, PrepareTtls(ttl, |keys|).value, clock), Puts(keys, values, ttl, clock));
    }
  }

  lemma PutEachSucceeds<K>(t: Table<K>, keys: seq<K>, values: seq<Dict>, ttl: TtlArg, clock: Clock)
    ensures PutEach(t, keys, values, ttl, clock).Ok? <==> CountsFit(keys, values, ttl) && EveryTtlValid(ttl, |keys|)
    ensures PutEach(t, keys, values, ttl, clock).Ok? ==>
      var ttls := PrepareTtls(ttl, |keys|);
      && ttls.Ok? && |ttls.value| == |keys|
      && PutEach(t, keys, values, ttl, clock).value == PutAll(t, keys, NewEach(values, ttls.value, clock))
  {
    PrepareTtlsOutcome(ttl, |keys|);
  }

  /** A successful put_many leaves the table that its puts leave when made in order. */
  lemma PutManyIsPutsInOrder<K>(t: Table<K>, keys: seq<K>, values: seq<Dict>, ttl: TtlArg, now: Time)
    requires CountsFit(keys, values, ttl) && EveryTtlValid(ttl, |keys|)
    ensures Step(t, PutMany(keys, values, ttl), now).state == TableAfter(t, Puts(keys, values, ttl, StillAt(now)))
    ensures forall i | 0 <= i < |keys| :: ReplyAt(t, Puts(keys, values, ttl, StillAt(now)), i) == Stored
  {
    PutEachIsPutsInOrder(t, keys, values, ttl, StillAt(now));
    StandingStill(t, keys, values, ttl, now);
  }

  lemma PutsShape<K>(keys: seq<K>, values: seq<Dict>, ttl: TtlArg, clock: Clock)
    requires CountsFit(keys, values, ttl) && EveryTtlValid(ttl, |keys|)
    ensures
      var ttls := PrepareTtls(ttl, |keys|);
      && ttls.Ok? && |ttls.value| == |keys|
      && IsPuts(keys, NewEach(values, ttls.value, clock), Puts(keys, values, ttl, clock))
  {
    PrepareTtlsOutcome(ttl, |keys|);
  }

  /** run makes the puts of entries under keys, in order. */
  ghost predicate IsPuts<K>(keys: seq<K>, entries: seq<Entry>, run: seq<Timed<K>>) {
    && |keys| == |entries| == |run|
    && forall i | 0 <= i < |run| ::
      && run[i].call.Put? && run[i].call.key == keys[i] && PositiveTtl(run[i].call.ttl)
      && entries[i] == NewEntry(run[i].call.value, run[i].call.ttl, run[i].now)
  }

  lemma PutsInOrder<K>(t: Table<K>, keys: seq<K>, entries: seq<Entry>, run: seq<Timed<K>>)
    requires IsPuts(keys, entries, run)
    ensures PutAll(t, keys, entries) == TableAfter(t, run)
    ensures forall i | 0 <= i < |run| :: ReplyAt(t, run, i) == Stored
  {
    PutsSoFar(t, keys, entries, run, |keys|);
    Whole(keys);
    Whole(entries);
    Whole(run);
  }

  lemma {:induction false} PutsSoFar<K>(t: Table<K>, keys: seq<K>, entries: seq<Entry>, run: seq<Timed<K>>, n: nat)
    requires IsPuts(keys, entries, run) && n <= |keys|
    ensures PutAll(t, keys[..n], entries[..n]) == TableAfter(t, run[..n])
  {
    if n > 0 {
      PutsSoFar(t, keys, entries, run, n - 1);
      assert keys[..n][..n - 1] == keys[..n - 1];
      assert entries[..n][..n - 1] == entries[..n - 1];
      StepOn(t, run, n);
    }
  }

  /** The index of the last occurrence of k in keys. */
  ghost function LastIndex<K>(keys: seq<K>, k: K): (i: nat)
    requires k in keys
    ensures i < |keys| && keys[i] == k && forall j | i < j < |keys| :: keys[j] != k
  {
    if keys[|keys| - 1] == k then |keys| - 1 else LastIndex(keys[..|keys| - 1], k)
  }

  /** Cell by cell: the last duplicate wins and every other key keeps what it had. */
  lemma {:induction false} LastDuplicateWins<K>(t: Table<K>, keys: seq<K>, entries: seq<Entry>)
    requires |keys| == |entries|
    ensures forall k :: k in PutAll(t, keys, entries) <==> k in t || k in keys
    ensures forall k | k in t && k !in keys :: PutAll(t, keys, entries)[k] == t[k]
    ensures forall k | k in keys :: PutAll(t, keys, entries)[k] == entries[LastIndex(keys, k)]
  {
    if keys != [] {
      var n := |keys| - 1;
      LastDuplicateWins(t, keys[..n], entries[..n]);
      assert keys == keys[..n] + [keys[n]];
    }
  }

  /** How many of the first n calls of the run deleted something. */
  function DeletedCount<K>(t: Table<K>, run: seq<Timed<K>>, n: nat): nat
    requires n <= |run|
  {
    if n == 0 then 0
    else DeletedCount(t, run, n - 1) + if ReplyAt(t, run, n - 1) == Deleted(true) then 1 else 0
  }

  /** delete_many leaves what its deletes leave when made in order, and its count is the
      number of those that reported a deletion, repeated keys included. */
  lemma DeleteManyIsDeletesInOrder<K>(t: Table<K>, keys: seq<K>, now: Time)
    ensures Step(t, DeleteMany(keys), now).state == TableAfter(t, Deletes(keys, now))
    ensures Step(t, DeleteMany(keys), now).reply == DeletedMany(DeletedCount(t, Deletes(keys, now), |keys|))
  {
    DeleteManyShape(t, keys, now);
    DeletesShape(keys, now);
    DeletesInOrder(t, keys, Deletes(keys, now));
  }

  lemma DeleteManyShape<K>(t: Table<K>, keys: seq<K>, now: Time)
    ensures Step(t, DeleteMany(keys), now).state == DeleteAll(t, keys)
    ensures Step(t, DeleteMany(keys), now).reply == DeletedMany(|t| - |DeleteAll(t, keys)|)
  {
  }

  lemma DeletesShape<K>(keys: seq<K>, now: Time)
    ensures |Deletes(keys, now)| == |keys|
    ensures forall i | 0 <= i < |keys| :: Deletes(keys, now)[i].call == Delete(keys[i])
  {
  }

  lemma DeletesInOrder<K>(t: Table<K>, keys: seq<K>, run: seq<Timed<K>>)
    requires |run| == |keys|
    requires forall i | 0 <= i < |run| :: run[i].call == Delete(keys[i])
    ensures TableAfter(t, run) == DeleteAll(t, keys)
    ensures DeletedCount(t, run, |run|) == |t| - |DeleteAll(t, keys)|
  {
    DeletesSoFar(t, keys, run, |keys|);
    CountSoFar(t, keys, run, |keys|);
    Whole(keys);
    Whole(run);
  }

  lemma Whole<T>(s: seq<T>)
    ensures s[..|s|] == s
  {
  }

  lemma OneDelete<K>(t: Table<K>, run: seq<Timed<K>>, k: K, n: nat)
    requires 0 < n <= |run| && run[n - 1].call == Delete(k)
    ensures TableAfter(t, run[..n]) == TableAfter(t, run[..n - 1]) - {k}
    ensures ReplyAt(t, run, n - 1) == Deleted(k in TableAfter(t, run[..n - 1]))
  {
    StepOn(t, run, n);
  }

  lemma {:induction false} DeletesSoFar<K>(t: Table<K>, keys: seq<K>, run: seq<Timed<K>>, n: nat)
    requires n <= |keys| == |run|
    requires forall i | 0 <= i < |run| :: run[i].call == Delete(keys[i])
    ensures TableAfter(t, run[..n]) == DeleteAll(t, keys[..n])
  {
    if n > 0 {
      DeletesSoFar(t, keys, run, n - 1);
      OneDelete(t, run, keys[n - 1], n);
      assert keys[..n][..n - 1] == keys[..n - 1];
    }
  }

  lemma {:induction false} CountSoFar<K>(t: Table<K>, keys: seq<K>, run: seq<Timed<K>>, n: nat)
    requires n <= |keys| == |run|
    requires forall i | 0 <= i < |run| :: run[i].call == Delete(keys[i])
    ensures DeletedCount(t, run, n) == |t| - |TableAfter(t, run[..n])|
  {
    if n > 0 {
      CountSoFar(t, keys, run, n - 1);
      OneDelete(t, run, keys[n - 1], n);
      RemovalSize(TableAfter(t, run[..n - 1]), keys[n - 1]);
    }
  }

  /** Cell by cell: exactly the named keys go, and every other key keeps its entry. */
  lemma {:induction false} DeleteAllCells<K>(t: Table<K>, keys: seq<K>)
    ensures DeleteAll(t, keys) == map k | k in t && k !in keys :: t[k]
  {
    if keys == [] {
    } else {
      var n := |keys| - 1;
      DeleteAllCells(t, keys[..n]);
      assert keys == keys[..n] + [keys[n]];
    }
  }
}
