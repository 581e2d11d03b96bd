/** Python's insertion-ordered dict, as SimpleStore uses it, and the bounded put on top of it. */
module OrderedDicts {
  import opened Prelude
  import opened KeyValue

  /** Keys in insertion order, and what is stored under them. */
  datatype OrderedDict<K> = OrderedDict(order: seq<K>, cells: Table<K>)

  ghost predicate Valid<K(!new)>(d: OrderedDict<K>) {
    NoRepeats(d.order) && forall k :: k in d.order <==> k in d.cells
  }

  function Empty<K>(): OrderedDict<K> {
    OrderedDict([], map[])
  }

  ghost predicate NoRepeats<K(!new)>(order: seq<K>) {
    forall i, j | 0 <= i < j < |order| :: order[i] != order[j]
  }

  /** The keys without k, which occurs at most once. */
  function Without<K(==, !new)>(order: seq<K>, k: K): seq<K> {
    if order == [] then []
    else if order[0] == k then order[1..]
    else [order[0]] + Without(order[1..], k)
  }

  lemma {:induction false} WithoutMeans<K(!new)>(order: seq<K>, k: K)
    requires NoRepeats(order)
    ensures NoRepeats(Without(order, k))
    ensures forall k' :: k' in Without(order, k) <==> k' in order && k' != k
  {
    if order != [] && order[0] != k {
      WithoutMeans(order[1..], k);
      assert order[0] !in order[1..];
      assert order == [order[0]] + order[1..];
    }
  }

  /** `d[k] = e`: a key that is already there keeps its place. */
  function Assign<K(==, !new)>(d: OrderedDict<K>, k: K, e: Entry): OrderedDict<K> {
    OrderedDict(if k in d.cells then d.order else d.order + [k], d.cells[k := e])
  }

  /** `d.pop(k, None)` */
  function Pop<K(==, !new)>(d: OrderedDict<K>, k: K): OrderedDict<K> {
    OrderedDict(Without(d.order, k), d.cells - {k})
  }

  /** A full dict loses its oldest entry, `next(iter(d))`. */
  function MakeRoom<K(==, !new)>(d: OrderedDict<K>, maxEntries: int): OrderedDict<K> {
    if |d.order| < maxEntries || d.order == [] then d else Pop(d, d.order[0])
  }

  /** `_put_managed_entry`: room is made even when the put overwrites a key that is there, and
      asking an empty dict for its oldest entry raises. */
  function BoundedPut<K(==, !new)>(d: OrderedDict<K>, maxEntries: int, k: K, e: Entry): Result<OrderedDict<K>> {
    if |d.order| >= maxEntries && d.order == [] then Err(EmptyStorePop)
    else Ok(Assign(MakeRoom(d, maxEntries), k, e))
  }

  lemma AssignValid<K(!new)>(d: OrderedDict<K>, k: K, e: Entry)
    requires Valid(d)
    ensures Valid(Assign(d, k, e))
  {
  }

  lemma PopValid<K(!new)>(d: OrderedDict<K>, k: K)
    requires Valid(d)
    ensures Valid(Pop(d, k))
  {
    WithoutMeans(d.order, k);
  }

  lemma PutValid<K(!new)>(d: OrderedDict<K>, maxEntries: int, k: K, e: Entry)
    requires Valid(d)
    ensures BoundedPut(d, maxEntries, k, e).Ok? ==> Valid(BoundedPut(d, maxEntries, k, e).value)
  {
    if d.order != [] {
      PopValid(d, d.order[0]);
      AssignValid(Pop(d, d.order[0]), k, e);
    }
    AssignValid(d, k, e);
  }

  /** With room for at least one entry a put succeeds and keeps the bound; its own entry is
      there afterwards, and of the others exactly the oldest is gone when the dict was full. */
  lemma PutDropsOnlyTheOldest<K(!new)>(d: OrderedDict<K>, maxEntries: int, k: K, e: Entry)
    requires Valid(d) && maxEntries >= 1 && |d.order| <= maxEntries
    ensures BoundedPut(d, maxEntries, k, e).Ok?
    ensures
      var d' := BoundedPut(d, maxEntries, k, e).value;
      && |d'.order| <= maxEntries
      && k in d'.cells && d'.cells[k] == e
      && (forall k' :: k' in d'.cells ==> k' == k || k' in d.cells)
      && (forall k' | k' in d.cells && k' != k ::
            if |d.order| == maxEntries && k' == d.order[0] then k' !in d'.cells
            else k' in d'.cells && d'.cells[k'] == d.cells[k'])
  {
  }

  /** Where the keys of a put go. A new key goes to the end, behind those that stay. A key that is
      overwritten keeps its place, unless the dict is full and it is the oldest: then it is removed
      to make room, and comes back as the newest. */
  lemma PutOrder<K(!new)>(d: OrderedDict<K>, maxEntries: int, k: K, e: Entry)
    requires Valid(d) && maxEntries >= 1 && |d.order| <= maxEntries
    ensures BoundedPut(d, maxEntries, k, e).Ok?
    ensures
      var stay := if |d.order| == maxEntries then d.order[1..] else d.order;
      BoundedPut(d, maxEntries, k, e).value.order == if k in stay then stay else stay + [k]
    ensures k in d.cells ==>
      BoundedPut(d, maxEntries, k, e).value.order
        == if |d.order| < maxEntries then d.order
           else if d.order[0] != k then d.order[1..]
           else d.order[1..] + [k]
  {
  }

  /** A put fails only on an empty dict that may hold nothing. */
  lemma PutFailsIff<K(!new)>(d: OrderedDict<K>, maxEntries: int, k: K, e: Entry)
    requires Valid(d)
    ensures BoundedPut(d, maxEntries, k, e).Err? <==> d.order == [] && maxEntries <= 0
  {
  }

  // ----- Writing several new keys -----

  function PutEach<K(==, !new)>(d: OrderedDict<K>, maxEntries: int, keys: seq<K>, entries: seq<Entry>)
    : (r: OrderedDict<K>)
    requires Valid(d) && maxEntries >= 1 && |d.order| <= maxEntries && |keys| == |entries|
    ensures Valid(r) && |r.order| <= maxEntries
    decreases |keys|
  {
    if keys == [] then d
    else
      var n := |keys| - 1;
      var before := PutEach(d, maxEntries, keys[..n], entries[..n]);
      PutDropsOnlyTheOldest(before, maxEntries, keys[n], entries[n]);
      PutValid(before, maxEntries, keys[n], entries[n]);
      BoundedPut(before, maxEntries, keys[n], entries[n]).value
  }

  lemma OnePutQueues<K(!new)>(d: OrderedDict<K>, maxEntries: int, k: K, e: Entry)
    requires Valid(d) && maxEntries >= 1 && |d.order| <= maxEntries && k !in d.order
    ensures BoundedPut(d, maxEntries, k, e).Ok?
    ensures BoundedPut(d, maxEntries, k, e).value.order
         == (if |d.order| == maxEntries then d.order[1..] else d.order) + [k]
  {
  }

  /** How many of the old keys are gone once n new ones are in. */
  function Evicted(stored: nat, n: nat, maxEntries: nat): nat {
    if stored + n <= maxEntries then 0 else stored + n - maxEntries
  }

  lemma QueueMoves<K>(queue: seq<K>, keys: seq<K>, n: nat, maxEntries: nat)
    requires n < |keys| <= maxEntries && |queue| <= maxEntries
    ensures Evicted(|queue|, n, maxEntries) <= |queue| && Evicted(|queue|, n + 1, maxEntries) <= |queue|
    ensures
      var before := queue[Evicted(|queue|, n, maxEntries)..] + keys[..n];
      (if |before| == maxEntries then before[1..] else before) + [keys[n]]
        == queue[Evicted(|queue|, n + 1, maxEntries)..] + keys[..n + 1]
  {
  }

  /** Evictions eat the old keys from the front while the new keys queue up behind them. */
  lemma {:induction false} NewKeysQueueUp<K(!new)>(
      d: OrderedDict<K>, maxEntries: int, keys: seq<K>, entries: seq<Entry>)
    requires Valid(d) && maxEntries >= 1 && |d.order| <= maxEntries && |keys| == |entries| <= maxEntries
    requires NoRepeats(keys) && forall i | 0 <= i < |keys| :: keys[i] !in d.cells
    ensures PutEach(d, maxEntries, keys, entries).order == d.order[Evicted(|d.order|, |keys|, maxEntries)..] + keys
    decreases |keys|
  {
    if keys == [] {
      assert d.order[0..] + keys == d.order;
    } else {
      var n := |keys| - 1;
      NewKeysQueueUp(d, maxEntries, keys[..n], entries[..n]);
      var before := PutEach(d, maxEntries, keys[..n], entries[..n]);
      QueueMoves(d.order, keys, n, maxEntries);
      NotYetQueued(d.order, keys, Evicted(|d.order|, n, maxEntries));
      OnePutQueues(before, maxEntries, keys[n], entries[n]);
      assert keys[..n + 1] == keys;
    }
  }

  lemma NotYetQueued<K(!new)>(queue: seq<K>, keys: seq<K>, evicted: nat)
    requires evicted <= |queue| && keys != [] && NoRepeats(keys)
    requires keys[|keys| - 1] !in queue
    ensures keys[|keys| - 1] !in queue[evicted..] + keys[..|keys| - 1]
  {
  }

  /** Writing at most maxEntries distinct keys that are not stored leaves all of them stored. */
  lemma NewKeysAllPresent<K(!new)>(d: OrderedDict<K>, maxEntries: int, keys: seq<K>, entries: seq<Entry>, i: nat)
    requires Valid(d) && maxEntries >= 1 && |d.order| <= maxEntries && i < |keys| == |entries| <= maxEntries
    requires NoRepeats(keys) && forall j | 0 <= j < |keys| :: keys[j] !in d.cells
    ensures keys[i] in PutEach(d, maxEntries, keys, entries).cells
    ensures PutEach(d, maxEntries, keys, entries).cells[keys[i]] == entries[i]
  {
    NewKeysQueueUp(d, maxEntries, keys, entries);
    var r := PutEach(d, maxEntries, keys, entries);
    Queued(d.order[Evicted(|d.order|, |keys|, maxEntries)..], keys, i);
    assert keys[i] in r.order;
    WrittenIfPresent(d, maxEntries, keys, entries, i);
  }

  lemma Queued<K>(front: seq<K>, keys: seq<K>, i: nat)
    requires i < |keys|
    ensures keys[i] in front + keys
  {
    assert (front + keys)[|front| + i] == keys[i];
  }

  /** What is left of a key that was written once is what was written. */
  lemma {:induction false} WrittenIfPresent<K(!new)>(
      d: OrderedDict<K>, maxEntries: int, keys: seq<K>, entries: seq<Entry>, i: nat)
    requires Valid(d) && maxEntries >= 1 && |d.order| <= maxEntries && i < |keys| == |entries|
    requires NoRepeats(keys) && keys[i] !in d.cells
    requires keys[i] in PutEach(d, maxEntries, keys, entries).cells
    ensures PutEach(d, maxEntries, keys, entries).cells[keys[i]] == entries[i]
    decreases |keys|
  {
    var n := |keys| - 1;
    var before := PutEach(d, maxEntries, keys[..n], entries[..n]);
    PutDropsOnlyTheOldest(before, maxEntries, keys[n], entries[n]);
    if i < n {
      WrittenIfPresent(d, maxEntries, keys[..n], entries[..n], i);
    }
  }
}
