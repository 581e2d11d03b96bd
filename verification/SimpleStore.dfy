/** stores/simple/store.py: one flat, bounded, insertion-ordered dict that stands for a map of
    collections of keys by joining collection and key with "::". */
module SimpleStores {
  import opened Prelude
  import opened TimeToLive
  import opened ManagedEntries
  import opened KeyValue
  import opened BaseStores
  import opened Compounds
  import opened OrderedDicts

  function FlatKey(s: Slot): string {
    CompoundKey(s.collection, s.key, None)
  }

  // ----- Calls on the store's hooks, and what they answer -----

  datatype HookCall =
    | Fetch(slot: Slot)                  // _get_managed_entry
    | Keep(slot: Slot, entry: Entry)     // _put_managed_entry
    | Remove(slot: Slot)                 // _delete_managed_entry
    | ListKeys(collection: string)       // _get_collection_keys
    | ListCollections                    // _get_collection_names
    | Clear                              // _delete_store

  datatype HookReply =
    | Fetched(entry: Option<Entry>)
    | Kept
    | Removed(existed: bool)
    | Keys(keys: seq<string>)
    | Collections(names: set<string>)
    | Cleared
    | Failed(error: Error)

  function Lookup<K>(t: Table<K>, k: K): Option<Entry> {
    if k in t then Some(t[k]) else None
  }

  /** What the code does, on the flat dict. */
  function FlatStep(d: OrderedDict<string>, maxEntries: int, call: HookCall): (OrderedDict<string>, HookReply) {
    match call
    case Fetch(s) => (d, Fetched(Lookup(d.cells, FlatKey(s))))
    case Keep(s, e) =>
      (match BoundedPut(d, maxEntries, FlatKey(s), e)
       case Err(error) => (d, Failed(error))
       case Ok(d') => (d', Kept))
    case Remove(s) => (Pop(d, FlatKey(s)), Removed(FlatKey(s) in d.cells))
    case ListKeys(c) =>
      (match GetKeysFromCompoundKeys(d.order, c, None)
       case Err(error) => (d, Failed(error))
       case Ok(keys) => (d, Keys(keys)))
    case ListCollections =>
      (match GetCollectionsFromCompoundKeys(d.order, None)
       case Err(error) => (d, Failed(error))
       case Ok(names) => (d, Collections(names)))
    case Clear => (Empty(), Cleared)
  }

  // ----- The two-level map it stands for -----

  function KeysOfCollection(order: seq<Slot>, collection: string): seq<string> {
    if order == [] then []
    else (if order[0].collection == collection then [order[0].key] else []) + KeysOfCollection(order[1..], collection)
  }

  /** The same calls on a map from (collection, key) with the same bound: no joined names. */
  function NestedStep(d: OrderedDict<Slot>, maxEntries: int, call: HookCall): (OrderedDict<Slot>, HookReply) {
    match call
    case Fetch(s) => (d, Fetched(Lookup(d.cells, s)))
    case Keep(s, e) =>
      (match BoundedPut(d, maxEntries, s, e)
       case Err(error) => (d, Failed(error))
       case Ok(d') => (d', Kept))
    case Remove(s) => (Pop(d, s), Removed(s in d.cells))
    case ListKeys(c) => (d, Keys(KeysOfCollection(d.order, c)))
    case ListCollections => (d, Collections(CollectionNames(d.order)))
    case Clear => (Empty(), Cleared)
  }

  /** Every collection name that the call stores or looks under is separable from its key. */
  predicate NamesSeparable(call: HookCall) {
    call.Fetch? || call.Keep? || call.Remove? ==> Separable(call.slot.collection, "::")
  }

  function FlatAfter(maxEntries: int, run: seq<HookCall>): OrderedDict<string> {
    if run == [] then Empty() else FlatStep(FlatAfter(maxEntries, run[..|run| - 1]), maxEntries, run[|run| - 1]).0
  }

  function NestedAfter(maxEntries: int, run: seq<HookCall>): OrderedDict<Slot> {
    if run == [] then Empty() else NestedStep(NestedAfter(maxEntries, run[..|run| - 1]), maxEntries, run[|run| - 1]).0
  }

  // ----- Simulation -----

  function FlatKeys(order: seq<Slot>): (flat: seq<string>)
    ensures |flat| == |order| && forall i | 0 <= i < |order| :: flat[i] == FlatKey(order[i])
  {
    seq(|order|, i requires 0 <= i < |order| => FlatKey(order[i]))
  }

  ghost predicate Encodes(nested: OrderedDict<Slot>, flat: OrderedDict<string>) {
    && Valid(nested) && Valid(flat)
    && flat.order == FlatKeys(nested.order)
    && forall s | s in nested.cells ::
      Separable(s.collection, "::") && FlatKey(s) in flat.cells && flat.cells[FlatKey(s)] == nested.cells[s]
  }

  lemma SeparableKeysSplit(s: Slot)
    requires Separable(s.collection, "::")
    ensures UncompoundString(FlatKey(s), Some("::")) == Ok((s.collection, s.key))
  {
    SplitUndoesJoin(s.collection, s.key, Some("::"));
  }

  lemma FlatKeyInjective(s: Slot, s': Slot)
    requires Separable(s.collection, "::") && Separable(s'.collection, "::") && FlatKey(s) == FlatKey(s')
    ensures s == s'
  {
    SeparableKeysSplit(s);
    SeparableKeysSplit(s');
  }

  /** A separable slot is stored in the one exactly when its joined key is in the other. */
  lemma SameCell(nested: OrderedDict<Slot>, flat: OrderedDict<string>, s: Slot)
    requires Encodes(nested, flat) && Separable(s.collection, "::")
    ensures Lookup(flat.cells, FlatKey(s)) == Lookup(nested.cells, s)
  {
    if FlatKey(s) in flat.cells {
      assert FlatKey(s) in flat.order;
      var i :| 0 <= i < |flat.order| && flat.order[i] == FlatKey(s);
      assert nested.order[i] in nested.order;
      FlatKeyInjective(nested.order[i], s);
    }
  }

  lemma FlatKeysCons(s: Slot, rest: seq<Slot>)
    ensures FlatKeys([s] + rest) == [FlatKey(s)] + FlatKeys(rest)
  {
  }

  lemma FlatKeysAppend(order: seq<Slot>, s: Slot)
    ensures FlatKeys(order + [s]) == FlatKeys(order) + [FlatKey(s)]
  {
  }

  lemma WithoutFirst<K(!new)>(x: K, rest: seq<K>, k: K)
    ensures Without([x] + rest, k) == if x == k then rest else [x] + Without(rest, k)
  {
    assert ([x] + rest)[1..] == rest;
  }

  ghost predicate AllSeparable(order: seq<Slot>) {
    forall i | 0 <= i < |order| :: Separable(order[i].collection, "::")
  }

  lemma {:induction false} WithoutEncodes(order: seq<Slot>, s: Slot)
    requires Separable(s.collection, "::") && AllSeparable(order)
    ensures Without(FlatKeys(order), FlatKey(s)) == FlatKeys(Without(order, s))
  {
    if order != [] {
      var x, rest := order[0], order[1..];
      assert order == [x] + rest;
      WithoutEncodes(rest, s);
      FlatKeysCons(x, rest);
      WithoutFirst(FlatKey(x), FlatKeys(rest), FlatKey(s));
      WithoutFirst(x, rest, s);
      FlatKeysCons(x, Without(rest, s));
      if FlatKey(x) == FlatKey(s) {
        FlatKeyInjective(x, s);
      }
    }
  }

  lemma OrderSeparable(nested: OrderedDict<Slot>, flat: OrderedDict<string>)
    requires Encodes(nested, flat)
    ensures AllSeparable(nested.order)
  {
    forall i | 0 <= i < |nested.order| ensures Separable(nested.order[i].collection, "::") {
      assert nested.order[i] in nested.order;
    }
  }

  lemma OthersDiffer(nested: OrderedDict<Slot>, flat: OrderedDict<string>, s: Slot)
    requires Encodes(nested, flat) && Separable(s.collection, "::")
    ensures forall s' | s' in nested.cells && s' != s :: FlatKey(s') != FlatKey(s)
  {
    forall s' | s' in nested.cells && s' != s ensures FlatKey(s') != FlatKey(s) {
      if FlatKey(s') == FlatKey(s) {
        FlatKeyInjective(s', s);
      }
    }
  }

  lemma PopEncodes(nested: OrderedDict<Slot>, flat: OrderedDict<string>, s: Slot)
    requires Encodes(nested, flat) && Separable(s.collection, "::")
    ensures Encodes(Pop(nested, s), Pop(flat, FlatKey(s)))
  {
    PopValid(nested, s);
    PopValid(flat, FlatKey(s));
    OrderSeparable(nested, flat);
    WithoutEncodes(nested.order, s);
    OthersDiffer(nested, flat, s);
  }

  lemma AssignOrderEncodes(nested: OrderedDict<Slot>, flat: OrderedDict<string>, s: Slot, e: Entry)
    requires Encodes(nested, flat) && Separable(s.collection, "::")
    ensures Assign(flat, FlatKey(s), e).order == FlatKeys(Assign(nested, s, e).order)
  {
    SameCell(nested, flat, s);
    FlatKeysAppend(nested.order, s);
  }

  lemma AssignEncodes(nested: OrderedDict<Slot>, flat: OrderedDict<string>, s: Slot, e: Entry)
    requires Encodes(nested, flat) && Separable(s.collection, "::")
    ensures Encodes(Assign(nested, s, e), Assign(flat, FlatKey(s), e))
  {
    AssignValid(nested, s, e);
    AssignValid(flat, FlatKey(s), e);
    AssignOrderEncodes(nested, flat, s, e);
    OthersDiffer(nested, flat, s);
  }

  lemma RoomEncodes(nested: OrderedDict<Slot>, flat: OrderedDict<string>, maxEntries: int)
    requires Encodes(nested, flat)
    ensures Encodes(MakeRoom(nested, maxEntries), MakeRoom(flat, maxEntries))
  {
    if |nested.order| >= maxEntries && nested.order != [] {
      assert nested.order[0] in nested.cells;
      PopEncodes(nested, flat, nested.order[0]);
    }
  }

  lemma PutEncodes(nested: OrderedDict<Slot>, flat: OrderedDict<string>, maxEntries: int, s: Slot, e: Entry)
    requires Encodes(nested, flat) && Separable(s.collection, "::")
    ensures BoundedPut(nested, maxEntries, s, e).Err? ==>
      BoundedPut(flat, maxEntries, FlatKey(s), e) == Err(BoundedPut(nested, maxEntries, s, e).error)
    ensures BoundedPut(nested, maxEntries, s, e).Ok? ==>
      && BoundedPut(flat, maxEntries, FlatKey(s), e).Ok?
      && Encodes(BoundedPut(nested, maxEntries, s, e).value, BoundedPut(flat, maxEntries, FlatKey(s), e).value)
  {
    RoomEncodes(nested, flat, maxEntries);
    AssignEncodes(MakeRoom(nested, maxEntries), MakeRoom(flat, maxEntries), s, e);
    assert |flat.order| == |nested.order|;
  }

  /** Splitting the joined keys gives the slots back, in order. */
  function Pairs(order: seq<Slot>): (ps: seq<(string, string)>)
    ensures |ps| == |order| && forall i | 0 <= i < |order| :: ps[i] == (order[i].collection, order[i].key)
  {
    seq(|order|, i requires 0 <= i < |order| => (order[i].collection, order[i].key))
  }

  lemma UncompoundFirst(s: string, rest: seq<string>, pair: (string, string), pairs: seq<(string, string)>)
    requires UncompoundString(s, Some("::")) == Ok(pair) && UncompoundStrings(rest, Some("::")) == Ok(pairs)
    ensures UncompoundStrings([s] + rest, Some("::")) == Ok([pair] + pairs)
  {
    assert ([s] + rest)[1..] == rest;
  }

  lemma PairsCons(s: Slot, rest: seq<Slot>)
    ensures Pairs([s] + rest) == [(s.collection, s.key)] + Pairs(rest)
  {
  }

  lemma {:induction false} KeysSplitBack(order: seq<Slot>)
    requires AllSeparable(order)
    ensures UncompoundStrings(FlatKeys(order), Some("::")) == Ok(Pairs(order))
  {
    if order != [] {
      var x, rest := order[0], order[1..];
      assert order == [x] + rest;
      SeparableKeysSplit(x);
      KeysSplitBack(rest);
      FlatKeysCons(x, rest);
      PairsCons(x, rest);
      UncompoundFirst(FlatKey(x), FlatKeys(rest), (x.collection, x.key), Pairs(rest));
    }
  }

  lemma {:induction false} SameKeys(order: seq<Slot>, c: string)
    ensures KeysIn(Pairs(order), c) == KeysOfCollection(order, c)
  {
    if order != [] {
      SameKeys(order[1..], c);
      assert Pairs(order)[1..] == Pairs(order[1..]);
    }
  }

  function CollectionNames(order: seq<Slot>): set<string> {
    set i | 0 <= i < |order| :: order[i].collection
  }

  lemma SameNames(order: seq<Slot>)
    ensures (set i | 0 <= i < |Pairs(order)| :: Pairs(order)[i].0) == CollectionNames(order)
  {
    var pairs := Pairs(order);
    assert forall i | 0 <= i < |pairs| :: pairs[i].0 == order[i].collection;
    assert forall i | 0 <= i < |order| :: order[i].collection == pairs[i].0;
  }

  lemma ListsAgree(nested: OrderedDict<Slot>, flat: OrderedDict<string>, c: string)
    requires Encodes(nested, flat)
    ensures GetKeysFromCompoundKeys(flat.order, c, None) == Ok(KeysOfCollection(nested.order, c))
    ensures GetCollectionsFromCompoundKeys(flat.order, None) == Ok(CollectionNames(nested.order))
  {
    OrderSeparable(nested, flat);
    KeysSplitBack(nested.order);
    SameKeys(nested.order, c);
    SameNames(nested.order);
  }

  lemma StepSimulates(nested: OrderedDict<Slot>, flat: OrderedDict<string>, maxEntries: int, call: HookCall)
    requires Encodes(nested, flat) && NamesSeparable(call)
    ensures Encodes(NestedStep(nested, maxEntries, call).0, FlatStep(flat, maxEntries, call).0)
    ensures FlatStep(flat, maxEntries, call).1 == NestedStep(nested, maxEntries, call).1
  {
    match call
    case Fetch(s) => SameCell(nested, flat, s);
    case Keep(s, e) => PutEncodes(nested, flat, maxEntries, s, e);
    case Remove(s) => SameCell(nested, flat, s); PopEncodes(nested, flat, s);
    case ListKeys(c) => ListsAgree(nested, flat, c);
    case ListCollections => ListsAgree(nested, flat, "");
    case Clear =>
  }

  lemma {:induction false} RunSimulates(maxEntries: int, run: seq<HookCall>, n: nat)
    requires n <= |run| && forall i | 0 <= i < |run| :: NamesSeparable(run[i])
    ensures Encodes(NestedAfter(maxEntries, run[..n]), FlatAfter(maxEntries, run[..n]))
  {
    if n > 0 {
      RunSimulates(maxEntries, run, n - 1);
      assert run[..n][..n - 1] == run[..n - 1];
      StepSimulates(NestedAfter(maxEntries, run[..n - 1]), FlatAfter(maxEntries, run[..n - 1]), maxEntries, run[n - 1]);
    }
  }

  /** On every run whose collection names are separable, the flat store answers every call as
      the map of maps with the same bound does. */
  lemma FlatStoreSimulatesNestedMap(maxEntries: int, run: seq<HookCall>, i: nat)
    requires i < |run| && forall j | 0 <= j < |run| :: NamesSeparable(run[j])
    ensures FlatStep(FlatAfter(maxEntries, run[..i]), maxEntries, run[i]).1
         == NestedStep(NestedAfter(maxEntries, run[..i]), maxEntries, run[i]).1
  {
    RunSimulates(maxEntries, run, i);
    StepSimulates(NestedAfter(maxEntries, run[..i]), FlatAfter(maxEntries, run[..i]), maxEntries, run[i]);
  }

  /** A name that is not separable breaks the correspondence at once: after storing one key
      under it, the flat store lists no key of that collection where the map lists the key. */
  lemma InseparableNameIsNotListed(maxEntries: int, s: Slot, e: Entry)
    requires maxEntries >= 1 && !Separable(s.collection, "::")
    ensures
      var run := [Keep(s, e), ListKeys(s.collection)];
      && FlatStep(FlatAfter(maxEntries, run[..1]), maxEntries, run[1]).1 == Keys([])
      && NestedStep(NestedAfter(maxEntries, run[..1]), maxEntries, run[1]).1 == Keys([s.key])
  {
    var run := [Keep(s, e), ListKeys(s.collection)];
    assert run[..1][..0] == [] && run[..1][0] == Keep(s, e);
    assert FlatAfter(maxEntries, run[..1]).order == [FlatKey(s)];
    assert NestedAfter(maxEntries, run[..1]).order == [s];
    KeyListedElsewhere(s);
    assert KeysOfCollection([s], s.collection) == [s.key];
  }

  lemma KeyListedElsewhere(s: Slot)
    requires !Separable(s.collection, "::")
    ensures GetKeysFromCompoundKeys([FlatKey(s)], s.collection, None) == Ok([])
  {
    var whole := FlatKey(s);
    assert OccursAt(whole, "::", |s.collection|);
    JoinUndoesSplit(whole, Some("::"));
    SplitAtFirst(s.collection, "::", s.key);
    var (first, second) := UncompoundString(whole, Some("::")).value;
    UncompoundFirst(whole, [], (first, second), []);
    assert [whole] + [] == [whole];
    assert first != s.collection;
    assert KeysIn([(first, second)], s.collection) == [];
    assert [(first, second)] + [] == [(first, second)];
  }

  // ----- Capacity and independence -----

  /** On every run from the empty store, whatever the names, the bound is kept. */
  lemma {:induction false} NeverOverfull(maxEntries: int, run: seq<HookCall>)
    requires maxEntries >= 1
    ensures Valid(FlatAfter(maxEntries, run)) && |FlatAfter(maxEntries, run).order| <= maxEntries
  {
    if run != [] {
      var n := |run| - 1;
      NeverOverfull(maxEntries, run[..n]);
      var d := FlatAfter(maxEntries, run[..n]);
      match run[n]
      case Keep(s, e) =>
        PutDropsOnlyTheOldest(d, maxEntries, FlatKey(s), e);
        PutValid(d, maxEntries, FlatKey(s), e);
      case Remove(s) =>
        PopValid(d, FlatKey(s));
        PopShrinks(d.order, FlatKey(s));
      case _ =>
    }
  }

  lemma {:induction false} PopShrinks<K(!new)>(order: seq<K>, k: K)
    ensures |Without(order, k)| <= |order|
  {
    if order != [] {
      PopShrinks(order[1..], k);
    }
  }

  lemma NestedOthersUntouched(nested: OrderedDict<Slot>, maxEntries: int, call: HookCall, other: Slot)
    requires Valid(nested) && maxEntries >= 1 && |nested.order| <= maxEntries
    requires (call.Keep? || call.Remove? || call.Fetch?) && call.slot != other
    ensures
      var evicted := call.Keep? && |nested.order| == maxEntries && other == nested.order[0];
      Lookup(NestedStep(nested, maxEntries, call).0.cells, other)
        == if evicted then None else Lookup(nested.cells, other)
  {
    if call.Keep? {
      PutDropsOnlyTheOldest(nested, maxEntries, call.slot, call.entry);
    }
  }

  lemma FlatOthersUntouched(
      nested: OrderedDict<Slot>, flat: OrderedDict<string>, maxEntries: int, call: HookCall, other: Slot)
    requires Encodes(nested, flat) && maxEntries >= 1 && |flat.order| <= maxEntries
    requires (call.Keep? || call.Remove? || call.Fetch?) && call.slot != other
    requires NamesSeparable(call) && Separable(other.collection, "::")
    ensures
      var evicted := call.Keep? && |flat.order| == maxEntries && FlatKey(other) == flat.order[0];
      Lookup(FlatStep(flat, maxEntries, call).0.cells, FlatKey(other))
        == if evicted then None else Lookup(flat.cells, FlatKey(other))
  {
    StepSimulates(nested, flat, maxEntries, call);
    SameCell(nested, flat, other);
    SameCell(NestedStep(nested, maxEntries, call).0, FlatStep(flat, maxEntries, call).0, other);
    NestedOthersUntouched(nested, maxEntries, call, other);
    if flat.order != [] {
      OrderSeparable(nested, flat);
      if FlatKey(other) == flat.order[0] {
        FlatKeyInjective(nested.order[0], other);
      }
    }
  }

  /** At every point of a run over separable names, a get, put or delete changes no cell of the
      flat dict but that of its own slot, and so nothing of another collection, save that a put
      into the full store evicts the one oldest entry. */
  lemma CollectionsIndependent(maxEntries: int, run: seq<HookCall>, i: nat, other: Slot)
    requires maxEntries >= 1 && i < |run| && forall j | 0 <= j < |run| :: NamesSeparable(run[j])
    requires Separable(other.collection, "::")
    requires (run[i].Keep? || run[i].Remove? || run[i].Fetch?) && run[i].slot != other
    ensures
      var before, after := FlatAfter(maxEntries, run[..i]), FlatAfter(maxEntries, run[..i + 1]);
      var evicted := run[i].Keep? && |before.order| == maxEntries && FlatKey(other) == before.order[0];
      Lookup(after.cells, FlatKey(other)) == if evicted then None else Lookup(before.cells, FlatKey(other))
  {
    RunSimulates(maxEntries, run, i);
    NeverOverfull(maxEntries, run[..i]);
    assert run[..i + 1][..i] == run[..i];
    FlatOthersUntouched(
      NestedAfter(maxEntries, run[..i]), FlatAfter(maxEntries, run[..i]), maxEntries, run[i], other);
  }

  /** Every slot of a collection whose name is not separable is written by a put into another
      collection. */
  lemma InseparableSlotsAreShared(maxEntries: int, s: Slot, e: Entry) returns (other: Slot)
    requires maxEntries >= 1 && !Separable(s.collection, "::")
    ensures other.collection != s.collection
    ensures FlatStep(FlatStep(Empty(), maxEntries, Keep(other, e)).0, maxEntries, Fetch(s)).1 == Fetched(Some(e))
  {
    InseparableNamesCollide(s.collection, s.key, Some("::"));
    var first, second :| |first| < |s.collection|
      && CompoundString(first, second, Some("::")) == CompoundString(s.collection, s.key, Some("::"));
    other := Slot(first, second);
  }

  // ----- The store object -----

  class SimpleStore {
    var data: OrderedDict<string>
    const maxEntries: int
    const defaultCollection: string

    constructor (maxEntries: int, defaultCollection: Option<string>)
      ensures data == Empty() && this.maxEntries == maxEntries
      ensures this.defaultCollection == CollectionOr(defaultCollection, DEFAULT_COLLECTION_NAME)
    {
      this.data := Empty();
      this.maxEntries := maxEntries;
      this.defaultCollection := CollectionOr(defaultCollection, DEFAULT_COLLECTION_NAME);
    }

    /** A fresh managed entry rebuilt from the stored one, its TTL computed at `built`. */
    method GetManagedEntry(collection: string, key: string, built: Time) returns (entry: ManagedEntry?)
      ensures
        var found := FlatStep(data, maxEntries, Fetch(Slot(collection, key))).1.entry;
        && (entry != null <==> found.Some?)
        && (entry != null ==> fresh(entry) && BaseStores.Kept(entry) == found.value)
        && (entry != null ==> entry.ttl == ReadEntry(found.value, built).ttl)
    {
      var comboKey := CompoundKey(collection, key, None);
      if comboKey !in data.cells {
        return null;
      }
      var stored := data.cells[comboKey];
      entry := new ManagedEntry(stored.value, stored.created, None, stored.expires, built);
    }

    method PutManagedEntry(collection: string, key: string, entry: ManagedEntry) returns (r: Result<()>)
      requires Valid(data)
      modifies this
      ensures Valid(data)
      ensures (data, if r.Ok? then HookReply.Kept else Failed(r.error))
           == FlatStep(old(data), maxEntries, Keep(Slot(collection, key), BaseStores.Kept(entry)))
    {
      var comboKey := CompoundKey(collection, key, None);
      PutValid(data, maxEntries, comboKey, BaseStores.Kept(entry));
      if |data.order| >= maxEntries {
        if data.order == [] {
          return Err(EmptyStorePop);
        }
        data := Pop(data, data.order[0]);
      }
      data := Assign(data, comboKey, BaseStores.Kept(entry));
      return Ok(());
    }

    method DeleteManagedEntry(collection: string, key: string) returns (existed: bool)
      requires Valid(data)
      modifies this
      ensures Valid(data)
      ensures (data, Removed(existed)) == FlatStep(old(data), maxEntries, Remove(Slot(collection, key)))
    {
      var comboKey := CompoundKey(collection, key, None);
      existed := comboKey in data.cells;
      PopValid(data, comboKey);
      data := Pop(data, comboKey);
    }

    /** The limit is accepted and ignored. */
    method GetCollectionKeys(collection: string, limit: Option<nat>) returns (r: Result<seq<string>>)
      ensures (data, if r.Ok? then Keys(r.value) else Failed(r.error))
           == FlatStep(data, maxEntries, ListKeys(collection))
    {
      r := GetKeysFromCompoundKeys(data.order, collection, None);
    }

    method GetCollectionNames(limit: Option<nat>) returns (r: Result<set<string>>)
      ensures (data, if r.Ok? then Collections(r.value) else Failed(r.error))
           == FlatStep(data, maxEntries, ListCollections)
    {
      r := GetCollectionsFromCompoundKeys(data.order, None);
    }

    method DeleteStore() returns (done: bool)
      modifies this
      ensures done && Valid(data)
      ensures (data, Cleared) == FlatStep(old(data), maxEntries, Clear)
    {
      data := Empty();
      done := true;
    }
  }
}
