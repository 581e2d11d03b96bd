/** Which entry a full SimpleStore gives up, told by the calls made and not by its ordered dict. */
module EvictionOrders {
  import opened Prelude
  import opened KeyValue
  import opened Compounds
  import opened OrderedDicts
  import opened SimpleStores

  // ----- Since when a key has been stored -----

  /** No key has been stored for longer. */
  ghost predicate IsOldest(since: map<string, nat>, k: string) {
    k in since && forall k' | k' in since :: since[k] <= since[k']
  }

  ghost function Oldest(since: map<string, nat>): string {
    if k :| IsOldest(since, k) then k else ""
  }

  ghost function WithRoom(since: map<string, nat>, maxEntries: int): map<string, nat> {
    if |since| < maxEntries then since else since - {Oldest(since)}
  }

  /** For every stored key the call that brought it: a put of a key that is there when room has been
      made does not count. */
  ghost function SinceAfter(maxEntries: int, run: seq<HookCall>): map<string, nat> {
    if run == [] then map[]
    else
      var n := |run| - 1;
      var before := SinceAfter(maxEntries, run[..n]);
      match run[n]
      case Keep(s, _) =>
        var room := WithRoom(before, maxEntries);
        if FlatKey(s) in room then room else room[FlatKey(s) := n]
      case Remove(s) => before - {FlatKey(s)}
      case Clear => map[]
      case _ => before
  }

  // ----- It is the order of the dict -----

  ghost predicate Ordered(order: seq<string>, since: map<string, nat>) {
    && (forall i | 0 <= i < |order| :: order[i] in since)
    && (forall k | k in since :: k in order)
    && forall i, j | 0 <= i < j < |order| :: since[order[i]] < since[order[j]]
  }

  lemma OrderedNoRepeats(order: seq<string>, since: map<string, nat>)
    requires Ordered(order, since)
    ensures NoRepeats(order)
  {
  }

  function Elements<T>(s: seq<T>): set<T> {
    set i | 0 <= i < |s| :: s[i]
  }

  lemma {:induction false} SizeOfOrder<T(!new)>(s: seq<T>)
    requires NoRepeats(s)
    ensures |Elements(s)| == |s|
  {
    if s != [] {
      SizeOfOrder(s[1..]);
      assert s == [s[0]] + s[1..];
      assert Elements(s) == {s[0]} + Elements(s[1..]);
    }
  }

  lemma SameSize(order: seq<string>, since: map<string, nat>)
    requires Ordered(order, since)
    ensures |since| == |order|
  {
    OrderedNoRepeats(order, since);
    SizeOfOrder(order);
    assert Elements(order) == since.Keys;
    assert |since.Keys| == |since|;
  }

  lemma FirstIsOldest(order: seq<string>, since: map<string, nat>)
    requires Ordered(order, since) && order != []
    ensures forall k :: IsOldest(since, k) <==> k == order[0]
    ensures Oldest(since) == order[0]
  {
    assert IsOldest(since, order[0]);
  }

  lemma {:induction false} WithoutOrdered(order: seq<string>, since: map<string, nat>, k: string)
    requires Ordered(order, since)
    ensures Ordered(Without(order, k), since - {k})
  {
    OrderedNoRepeats(order, since);
    WithoutMeans(order, k);
    WithoutSorted(order, since, k);
  }

  lemma {:induction false} WithoutSorted(order: seq<string>, since: map<string, nat>, k: string)
    requires forall i | 0 <= i < |order| :: order[i] in since
    requires forall i, j | 0 <= i < j < |order| :: since[order[i]] < since[order[j]]
    ensures forall i | 0 <= i < |Without(order, k)| :: Without(order, k)[i] in order
    ensures forall i, j | 0 <= i < j < |Without(order, k)| ::
      since[Without(order, k)[i]] < since[Without(order, k)[j]]
  {
    if order != [] && order[0] != k {
      WithoutSorted(order[1..], since, k);
      assert order == [order[0]] + order[1..];
      assert forall x | x in order[1..] :: since[order[0]] < since[x];
    }
  }

  lemma RoomOrdered(d: OrderedDict<string>, since: map<string, nat>, maxEntries: int)
    requires Ordered(d.order, since) && maxEntries >= 1
    ensures Ordered(MakeRoom(d, maxEntries).order, WithRoom(since, maxEntries))
  {
    SameSize(d.order, since);
    if |d.order| >= maxEntries {
      FirstIsOldest(d.order, since);
      WithoutOrdered(d.order, since, d.order[0]);
    }
  }

  lemma AssignOrdered(d: OrderedDict<string>, since: map<string, nat>, k: string, e: Entry, n: nat)
    requires Valid(d) && Ordered(d.order, since) && forall k' | k' in since :: since[k'] < n
    ensures Ordered(Assign(d, k, e).order, if k in since then since else since[k := n])
  {
  }

  /** At every point of every run the store holds the keys of SinceAfter, in that order. */
  lemma {:induction false} OrderIsBySince(maxEntries: int, run: seq<HookCall>)
    requires maxEntries >= 1
    ensures Valid(FlatAfter(maxEntries, run))
    ensures Ordered(FlatAfter(maxEntries, run).order, SinceAfter(maxEntries, run))
    ensures forall k | k in SinceAfter(maxEntries, run) :: SinceAfter(maxEntries, run)[k] < |run|
  {
    NeverOverfull(maxEntries, run);
    if run != [] {
      var n := |run| - 1;
      OrderIsBySince(maxEntries, run[..n]);
      var d, since := FlatAfter(maxEntries, run[..n]), SinceAfter(maxEntries, run[..n]);
      match run[n]
      case Keep(s, e) => PutOrdered(d, since, maxEntries, FlatKey(s), e, n);
      case Remove(s) => WithoutOrdered(d.order, since, FlatKey(s));
      case _ =>
    }
  }

  lemma PutOrdered(d: OrderedDict<string>, since: map<string, nat>, maxEntries: int, k: string, e: Entry, n: nat)
    requires Valid(d) && Ordered(d.order, since) && maxEntries >= 1 && forall k' | k' in since :: since[k'] < n
    ensures BoundedPut(d, maxEntries, k, e).Ok?
    ensures
      var room := WithRoom(since, maxEntries);
      Ordered(BoundedPut(d, maxEntries, k, e).value.order, if k in room then room else room[k := n])
  {
    RoomOrdered(d, since, maxEntries);
    if |d.order| >= maxEntries {
      PopValid(d, d.order[0]);
    }
    AssignOrdered(MakeRoom(d, maxEntries), WithRoom(since, maxEntries), k, e, n);
  }

  // ----- Which entry goes -----

  /** A put into the store removes another key exactly when the store is full and that key is the
      one that has been there longest. */
  lemma LongestStoredIsEvicted(maxEntries: int, run: seq<HookCall>, s: Slot, e: Entry, k: string)
    requires maxEntries >= 1 && k != FlatKey(s) && k in FlatAfter(maxEntries, run).cells
    ensures
      var d := FlatAfter(maxEntries, run);
      (k !in FlatStep(d, maxEntries, Keep(s, e)).0.cells)
      <==> |d.cells| >= maxEntries && IsOldest(SinceAfter(maxEntries, run), k)
  {
    var d, since := FlatAfter(maxEntries, run), SinceAfter(maxEntries, run);
    OrderIsBySince(maxEntries, run);
    NeverOverfull(maxEntries, run);
    SameSize(d.order, since);
    FirstIsOldest(d.order, since);
    assert d.cells.Keys == since.Keys;
    assert |d.cells.Keys| == |d.cells| && |since.Keys| == |since|;
    PutDropsOnlyTheOldest(d, maxEntries, FlatKey(s), e);
  }

  /** At the i-th call k was put where it was not, or where it had just been removed to make room for
      that same put. */
  ghost predicate ArrivesAt(maxEntries: int, run: seq<HookCall>, i: nat, k: string)
    requires i < |run|
  {
    && run[i].Keep? && FlatKey(run[i].slot) == k
    && var before := FlatAfter(maxEntries, run[..i]).cells;
       k in before ==> |before| >= maxEntries && IsOldest(SinceAfter(maxEntries, run[..i]), k)
  }

  lemma StepSince(maxEntries: int, run: seq<HookCall>, k: string)
    requires maxEntries >= 1 && run != []
    ensures
      var n := |run| - 1;
      var before, after := SinceAfter(maxEntries, run[..n]), SinceAfter(maxEntries, run);
      k in after ==> if ArrivesAt(maxEntries, run, n, k) then after[k] == n else k in before && after[k] == before[k]
  {
    var n := |run| - 1;
    OldestIsKnown(maxEntries, run[..n]);
  }

  lemma OldestIsKnown(maxEntries: int, run: seq<HookCall>)
    requires maxEntries >= 1
    ensures
      var cells, since := FlatAfter(maxEntries, run).cells, SinceAfter(maxEntries, run);
      && |since| == |cells| && (forall k :: k in since <==> k in cells)
      && (since != map[] ==> forall k :: IsOldest(since, k) <==> k == Oldest(since))
  {
    var d, since := FlatAfter(maxEntries, run), SinceAfter(maxEntries, run);
    OrderIsBySince(maxEntries, run);
    assert d.cells.Keys == since.Keys;
    assert |d.cells.Keys| == |d.cells| && |since.Keys| == |since|;
    if d.order != [] {
      FirstIsOldest(d.order, since);
    }
  }

  /** Of the first n calls the i-th is the one at which k arrived last: it has been there ever since,
      and has not arrived again. */
  ghost predicate StoredSince(maxEntries: int, run: seq<HookCall>, n: nat, k: string, i: nat)
    requires n <= |run|
  {
    && i < n && ArrivesAt(maxEntries, run, i, k)
    && forall j | i < j < n :: k in FlatAfter(maxEntries, run[..j]).cells && !ArrivesAt(maxEntries, run, j, k)
  }

  lemma {:induction false} SinceAtEveryPoint(maxEntries: int, run: seq<HookCall>, n: nat, k: string)
    requires maxEntries >= 1 && n <= |run| && k in SinceAfter(maxEntries, run[..n])
    ensures StoredSince(maxEntries, run, n, k, SinceAfter(maxEntries, run[..n])[k])
  {
    if n > 0 {
      assert run[..n][..n - 1] == run[..n - 1];
      StepSince(maxEntries, run[..n], k);
      assert ArrivesAt(maxEntries, run, n - 1, k) <==> ArrivesAt(maxEntries, run[..n], n - 1, k);
      if !ArrivesAt(maxEntries, run, n - 1, k) {
        SinceAtEveryPoint(maxEntries, run, n - 1, k);
        KeysOfSince(maxEntries, run[..n - 1], k);
      }
    }
  }

  lemma KeysOfSince(maxEntries: int, run: seq<HookCall>, k: string)
    requires maxEntries >= 1
    ensures k in SinceAfter(maxEntries, run) <==> k in FlatAfter(maxEntries, run).cells
  {
    OrderIsBySince(maxEntries, run);
  }

  /** SinceAfter has the keys that are stored, and for each of them that call. */
  lemma SinceMeans(maxEntries: int, run: seq<HookCall>, k: string)
    requires maxEntries >= 1
    ensures k in SinceAfter(maxEntries, run) <==> k in FlatAfter(maxEntries, run).cells
    ensures k in SinceAfter(maxEntries, run) ==>
      StoredSince(maxEntries, run, |run|, k, SinceAfter(maxEntries, run)[k])
  {
    KeysOfSince(maxEntries, run, k);
    assert run[..|run|] == run;
    if k in SinceAfter(maxEntries, run) {
      SinceAtEveryPoint(maxEntries, run, |run|, k);
    }
  }

  // ----- What is fetched -----

  /** A put is kept and its slot then fetched; a removed slot is missing, and the reply says whether it
      was there; nothing is there after a clear. */
  lemma FetchedAfterOneCall(d: OrderedDict<string>, maxEntries: int, s: Slot, e: Entry)
    requires Valid(d) && maxEntries >= 1 && |d.order| <= maxEntries
    ensures
      var (kept, reply) := FlatStep(d, maxEntries, Keep(s, e));
      reply == Kept && FlatStep(kept, maxEntries, Fetch(s)).1 == Fetched(Some(e))
    ensures
      var (removed, reply) := FlatStep(d, maxEntries, Remove(s));
      && reply == Removed(FlatStep(d, maxEntries, Fetch(s)).1 != Fetched(None))
      && FlatStep(removed, maxEntries, Fetch(s)).1 == Fetched(None)
    ensures
      var (cleared, reply) := FlatStep(d, maxEntries, Clear);
      reply == Cleared && FlatStep(cleared, maxEntries, Fetch(s)).1 == Fetched(None)
  {
    PutDropsOnlyTheOldest(d, maxEntries, FlatKey(s), e);
  }

  /** The i-th call put e under the key, and no later one has put anything there. */
  predicate LastPut(run: seq<HookCall>, k: string, e: Entry, i: nat) {
    && i < |run| && run[i].Keep? && FlatKey(run[i].slot) == k && run[i].entry == e
    && forall j | i < j < |run| :: !(run[j].Keep? && FlatKey(run[j].slot) == k)
  }

  /** On every run, what is fetched is what was last put there. */
  lemma {:induction false} FetchedIsLastPut(maxEntries: int, run: seq<HookCall>, s: Slot, e: Entry)
    requires maxEntries >= 1
    requires FlatStep(FlatAfter(maxEntries, run), maxEntries, Fetch(s)).1 == Fetched(Some(e))
    ensures exists i: nat :: LastPut(run, FlatKey(s), e, i)
  {
    var k := FlatKey(s);
    var n := |run| - 1;
    var d := FlatAfter(maxEntries, run[..n]);
    if run[n].Keep? && FlatKey(run[n].slot) == k {
      NeverOverfull(maxEntries, run[..n]);
      PutDropsOnlyTheOldest(d, maxEntries, k, run[n].entry);
      assert LastPut(run, k, e, n);
    } else {
      FetchedBefore(d, maxEntries, run[n], k, e);
      FetchedIsLastPut(maxEntries, run[..n], s, e);
      var i: nat :| LastPut(run[..n], k, e, i);
      assert LastPut(run, k, e, i);
    }
  }

  lemma FetchedBefore(d: OrderedDict<string>, maxEntries: int, call: HookCall, k: string, e: Entry)
    requires k in FlatStep(d, maxEntries, call).0.cells && FlatStep(d, maxEntries, call).0.cells[k] == e
    requires !(call.Keep? && FlatKey(call.slot) == k)
    ensures k in d.cells && d.cells[k] == e
  {
  }

  // ----- What is listed -----

  lemma {:induction false} KeysAreOfSlots(order: seq<Slot>, c: string, key: string)
    ensures key in KeysOfCollection(order, c) <==> Slot(c, key) in order
  {
    if order != [] {
      KeysAreOfSlots(order[1..], c, key);
      assert order == [order[0]] + order[1..];
    }
  }

  /** On runs over separable names exactly the keys that are fetched are listed, and the names of
      their collections. */
  lemma ListedIffFetched(maxEntries: int, run: seq<HookCall>, c: string, key: string)
    requires forall i | 0 <= i < |run| :: NamesSeparable(run[i])
    requires Separable(c, "::")
    ensures
      var d := FlatAfter(maxEntries, run);
      var keys := FlatStep(d, maxEntries, ListKeys(c)).1;
      keys.Keys? && (key in keys.keys <==> FlatStep(d, maxEntries, Fetch(Slot(c, key))).1 != Fetched(None))
    ensures
      var d := FlatAfter(maxEntries, run);
      var names := FlatStep(d, maxEntries, ListCollections).1;
      names.Collections? && (c in names.names <==> FlatStep(d, maxEntries, ListKeys(c)).1 != Keys([]))
  {
    assert run[..|run|] == run;
    RunSimulates(maxEntries, run, |run|);
    var nested, flat := NestedAfter(maxEntries, run), FlatAfter(maxEntries, run);
    StepSimulates(nested, flat, maxEntries, ListKeys(c));
    StepSimulates(nested, flat, maxEntries, ListCollections);
    StepSimulates(nested, flat, maxEntries, Fetch(Slot(c, key)));
    KeysAreOfSlots(nested.order, c, key);
    ListedNames(nested.order, c);
  }

  /** The keys of c have been stored in that order. */
  ghost predicate Arrived(c: string, keys: seq<string>, since: map<string, nat>) {
    && (forall i | 0 <= i < |keys| :: FlatKey(Slot(c, keys[i])) in since)
    && forall i, j | 0 <= i < j < |keys| :: since[FlatKey(Slot(c, keys[i]))] < since[FlatKey(Slot(c, keys[j]))]
  }

  lemma EarlierArrived(c: string, key: string, rest: seq<string>, since: map<string, nat>)
    requires Arrived(c, rest, since) && FlatKey(Slot(c, key)) in since
    requires forall i | 0 <= i < |rest| :: since[FlatKey(Slot(c, key))] < since[FlatKey(Slot(c, rest[i]))]
    ensures Arrived(c, [key] + rest, since)
  {
    assert forall i | 0 < i <= |rest| :: ([key] + rest)[i] == rest[i - 1];
  }

  lemma {:induction false} KeysSorted(order: seq<Slot>, c: string, since: map<string, nat>)
    requires forall i | 0 <= i < |order| :: FlatKey(order[i]) in since
    requires forall i, j | 0 <= i < j < |order| :: since[FlatKey(order[i])] < since[FlatKey(order[j])]
    ensures Arrived(c, KeysOfCollection(order, c), since)
  {
    if order != [] {
      var rest := KeysOfCollection(order[1..], c);
      KeysSorted(order[1..], c, since);
      assert forall s | s in order[1..] :: since[FlatKey(order[0])] < since[FlatKey(s)];
      if order[0].collection == c {
        forall i | 0 <= i < |rest| ensures since[FlatKey(order[0])] < since[FlatKey(Slot(c, rest[i]))] {
          KeysAreOfSlots(order[1..], c, rest[i]);
        }
        assert order[0] == Slot(c, order[0].key);
        EarlierArrived(c, order[0].key, rest, since);
      } else {
        assert KeysOfCollection(order, c) == rest;
      }
    }
  }

  lemma ListedAsEncoded(maxEntries: int, run: seq<HookCall>, c: string)
    requires forall i | 0 <= i < |run| :: NamesSeparable(run[i])
    requires Separable(c, "::")
    ensures
      var nested, flat := NestedAfter(maxEntries, run), FlatAfter(maxEntries, run);
      && flat.order == FlatKeys(nested.order)
      && FlatStep(flat, maxEntries, ListKeys(c)).1 == Keys(KeysOfCollection(nested.order, c))
  {
    assert run[..|run|] == run;
    RunSimulates(maxEntries, run, |run|);
    StepSimulates(NestedAfter(maxEntries, run), FlatAfter(maxEntries, run), maxEntries, ListKeys(c));
  }

  /** They are listed in the order in which they arrived. */
  lemma ListedByArrival(maxEntries: int, run: seq<HookCall>, c: string)
    requires maxEntries >= 1
    requires forall i | 0 <= i < |run| :: NamesSeparable(run[i])
    requires Separable(c, "::")
    ensures
      var reply := FlatStep(FlatAfter(maxEntries, run), maxEntries, ListKeys(c)).1;
      reply.Keys? && Arrived(c, reply.keys, SinceAfter(maxEntries, run))
  {
    ListedAsEncoded(maxEntries, run, c);
    OrderIsBySince(maxEntries, run);
    EncodedSorted(NestedAfter(maxEntries, run).order, FlatAfter(maxEntries, run).order, c, SinceAfter(maxEntries, run));
  }

  lemma EncodedSorted(nested: seq<Slot>, flat: seq<string>, c: string, since: map<string, nat>)
    requires flat == FlatKeys(nested) && Ordered(flat, since)
    ensures Arrived(c, KeysOfCollection(nested, c), since)
  {
    forall i | 0 <= i < |nested| ensures FlatKey(nested[i]) == flat[i] {
    }
    KeysSorted(nested, c, since);
  }

  lemma {:induction false} ListedNames(order: seq<Slot>, c: string)
    ensures c in CollectionNames(order) <==> KeysOfCollection(order, c) != []
  {
    if order != [] {
      ListedNames(order[1..], c);
      assert CollectionNames(order) == {order[0].collection} + CollectionNames(order[1..]);
    }
  }
}
