/** wrappers/single_collection/wrapper.py and wrappers/prefix_keys/wrapper.py: many name spaces
    in one, told apart by prefixed keys. */
module KeyWrappers {
  import opened Prelude
  import opened TimeToLive
  import opened KeyValue
  import opened BulkOperations
  import opened BaseStores
  import opened Compounds
  import opened KeyPlacement

  // ----- SingleCollectionWrapper -----

  /** A slot goes into the one backing collection, its key prefixed with its collection. */
  function SinglePlacement(backing: string, separator: string): Slot -> Slot {
    (s: Slot) => Slot(backing, PrefixKey(s.key, s.collection, Some(separator)))
  }

  ghost function SlotsNamed(names: iset<string>): iset<Slot> {
    iset s: Slot | s.collection in names
  }

  /** With the separator added, no name starts another. */
  ghost predicate PairwiseApart(names: iset<string>, separator: string) {
    forall c, c' | c in names && c' in names && c != c' :: Apart(c + separator, c' + separator)
  }

  lemma PrefixedAs(key: string, prefix: string, separator: string)
    requires separator != ""
    ensures PrefixKey(key, prefix, Some(separator)) == prefix + separator + key
  {
  }

  lemma ApartPlacesApart(backing: string, separator: string, s: Slot, s': Slot)
    requires separator != ""
    requires s.collection != s'.collection ==> Apart(s.collection + separator, s'.collection + separator)
    requires SinglePlacement(backing, separator)(s) == SinglePlacement(backing, separator)(s')
    ensures s == s'
  {
    PrefixedAs(s.key, s.collection, separator);
    PrefixedAs(s'.key, s'.collection, separator);
    if s.collection != s'.collection {
      ApartStaysApart(s.collection + separator, s'.collection + separator, s.key, s'.key);
    } else {
      UnprefixUndoesPrefix(s.key, s.collection, Some(separator));
      UnprefixUndoesPrefix(s'.key, s'.collection, Some(separator));
    }
  }

  /** The wrapper simulates independent collections, on every run over the given names, exactly
      when the names are pairwise prefix-free once the separator is added. */
  lemma SingleCollectionSimulatesIff(backing: string, separator: string, names: iset<string>)
    requires separator != ""
    ensures Simulates(SinglePlacement(backing, separator), SlotsNamed(names)) <==> PairwiseApart(names, separator)
  {
    var place := SinglePlacement(backing, separator);
    SimulatesIffInjective(place, SlotsNamed(names));
    if PairwiseApart(names, separator) {
      forall s, s' | s in SlotsNamed(names) && s' in SlotsNamed(names) && place(s) == place(s') ensures s == s' {
        ApartPlacesApart(backing, separator, s, s');
      }
    } else {
      var c, c' :| c in names && c' in names && c != c' && !Apart(c + separator, c' + separator);
      PrefixesDisjoint(c, c', Some(separator));
      var k, k' :| PrefixKey(k, c, Some(separator)) == PrefixKey(k', c', Some(separator));
      assert place(Slot(c, k)) == place(Slot(c', k'));
      assert Slot(c, k) in SlotsNamed(names) && Slot(c', k') in SlotsNamed(names);
    }
  }

  class SingleCollectionWrapper {
    const store: Store
    const singleCollection: string
    const defaultCollection: string
    const separator: string

    constructor (store: Store, singleCollection: string, defaultCollection: Option<string>, separator: Option<string>)
      ensures this.store == store && this.singleCollection == singleCollection
      ensures this.defaultCollection == CollectionOr(defaultCollection, DEFAULT_COLLECTION_NAME)
      ensures this.separator == SeparatorOr(separator, DEFAULT_PREFIX_SEPARATOR)
    {
      this.store := store;
      this.singleCollection := singleCollection;
      this.defaultCollection := CollectionOr(defaultCollection, DEFAULT_COLLECTION_NAME);
      this.separator := SeparatorOr(separator, DEFAULT_PREFIX_SEPARATOR);
    }

    function SlotOf(collection: Option<string>, key: string): Slot {
      Slot(CollectionOr(collection, defaultCollection), key)
    }

    function SlotsOf(collection: Option<string>, keys: seq<string>): seq<Slot> {
      SlotsIn(CollectionOr(collection, defaultCollection), keys)
    }

    /** An empty backing name makes the wrapped store use its own default. */
    function Placement(): Slot -> Slot {
      SinglePlacement(CollectionOr(Some(singleCollection), store.defaultCollection), separator)
    }

    function NewKey(key: string, collection: Option<string>): string {
      PrefixKey(key, CollectionOr(collection, defaultCollection), Some(separator))
    }

    function NewKeys(keys: seq<string>, collection: Option<string>): (newKeys: seq<string>)
      ensures |newKeys| == |keys| && forall i | 0 <= i < |keys| :: newKeys[i] == NewKey(keys[i], collection)
    {
      seq(|keys|, i requires 0 <= i < |keys| => NewKey(keys[i], collection))
    }

    lemma SameSlots(keys: seq<string>, newKeys: seq<string>, collection: Option<string>)
      requires newKeys == NewKeys(keys, collection)
      ensures store.SlotsOf(Some(singleCollection), newKeys) == PlaceAll(Placement(), SlotsOf(collection, keys))
    {
    }

    method Get(key: string, collection: Option<string>, now: Time) returns (r: Option<Dict>)
      ensures Outcome(store.data, Got(r))
           == Step(old(store.data), PlaceCall(Placement(), Call.Get(SlotOf(collection, key))), now)
    {
      r := store.Get(NewKey(key, collection), Some(singleCollection), now);
    }

    method GetMany(keys: seq<string>, collection: Option<string>, now: Time) returns (r: seq<Option<Dict>>)
      ensures Outcome(store.data, GotMany(r))
           == Step(old(store.data), PlaceCall(Placement(), Call.GetMany(SlotsOf(collection, keys))), now)
    {
      var newKeys := NewKeys(keys, collection);
      StandingStill(store.data, store.SlotsOf(Some(singleCollection), newKeys), [], NoTtl, now);
      r := store.GetMany(newKeys, Some(singleCollection), StillAt(now));
      SameSlots(keys, newKeys, collection);
    }

    method Ttl(key: string, collection: Option<string>, now: Time) returns (r: Reading)
      ensures Outcome(store.data, Read(r))
           == Step(old(store.data), PlaceCall(Placement(), Call.Ttl(SlotOf(collection, key))), now)
    {
      r := store.Ttl(NewKey(key, collection), Some(singleCollection), now, now);
    }

    method TtlMany(keys: seq<string>, collection: Option<string>, now: Time) returns (r: seq<Reading>)
      ensures Outcome(store.data, ReadMany(r))
           == Step(old(store.data), PlaceCall(Placement(), Call.TtlMany(SlotsOf(collection, keys))), now)
    {
      var newKeys := NewKeys(keys, collection);
      StandingStill(store.data, store.SlotsOf(Some(singleCollection), newKeys), [], NoTtl, now);
      r := store.TtlMany(newKeys, Some(singleCollection), StillAt(now), StillAt(now));
      SameSlots(keys, newKeys, collection);
    }

    method Put(key: string, value: Dict, collection: Option<string>, ttl: Option<real>, now: Time)
      returns (r: Result<()>)
      modifies store`data
      ensures Outcome(store.data, if r.Ok? then Stored else Raised(r.error))
           == Step(old(store.data), PlaceCall(Placement(), Call.Put(SlotOf(collection, key), value, ttl)), now)
    {
      r := store.Put(NewKey(key, collection), value, Some(singleCollection), ttl, now);
    }

    method PutMany(keys: seq<string>, values: seq<Dict>, collection: Option<string>, ttl: TtlArg, now: Time)
      returns (r: Result<()>)
      modifies store`data
      ensures Outcome(store.data, if r.Ok? then Stored else Raised(r.error))
           == Step(old(store.data), PlaceCall(Placement(), Call.PutMany(SlotsOf(collection, keys), values, ttl)), now)
    {
      var newKeys := NewKeys(keys, collection);
      SameSlots(keys, newKeys, collection);
      StandingStill(store.data, store.SlotsOf(Some(singleCollection), newKeys), values, ttl, now);
      r := store.PutMany(newKeys, values, Some(singleCollection), ttl, StillAt(now));
    }

    method Delete(key: string, collection: Option<string>, ghost now: Time) returns (existed: bool)
      modifies store`data
      ensures Outcome(store.data, Deleted(existed))
           == Step(old(store.data), PlaceCall(Placement(), Call.Delete(SlotOf(collection, key))), now)
    {
      existed := store.Delete(NewKey(key, collection), Some(singleCollection));
    }

    method DeleteMany(keys: seq<string>, collection: Option<string>, ghost now: Time) returns (deletedCount: int)
      modifies store`data
      ensures Outcome(store.data, DeletedMany(deletedCount))
           == Step(old(store.data), PlaceCall(Placement(), Call.DeleteMany(SlotsOf(collection, keys))), now)
    {
      var newKeys := NewKeys(keys, collection);
      SameSlots(keys, newKeys, collection);
      DeleteManyShape(store.data, PlaceAll(Placement(), SlotsOf(collection, keys)), now);
      assert PlaceCall(Placement(), Call.DeleteMany(SlotsOf(collection, keys)))
          == Call.DeleteMany(PlaceAll(Placement(), SlotsOf(collection, keys)));
      deletedCount := store.DeleteMany(newKeys, Some(singleCollection));
    }
  }

  // ----- PrefixKeysWrapper -----

  /** A slot as seen through the wrapper that uses this prefix. */
  datatype Owned = Owned(prefix: string, slot: Slot)

  /** The collection stays, the key is prefixed; the separator is the default one. */
  function PrefixPlacement(): Owned -> Slot {
    (o: Owned) => Slot(o.slot.collection, PrefixKey(o.slot.key, o.prefix, None))
  }

  ghost function OwnedBy(prefixes: iset<string>): iset<Owned> {
    iset o: Owned | o.prefix in prefixes
  }

  lemma ApartOwnersApart(o: Owned, o': Owned)
    requires o.prefix != o'.prefix ==> Apart(o.prefix + "__", o'.prefix + "__")
    requires PrefixPlacement()(o) == PrefixPlacement()(o')
    ensures o == o'
  {
    if o.prefix != o'.prefix {
      ApartStaysApart(o.prefix + "__", o'.prefix + "__", o.slot.key, o'.slot.key);
    } else {
      UnprefixUndoesPrefix(o.slot.key, o.prefix, None);
      UnprefixUndoesPrefix(o'.slot.key, o'.prefix, None);
    }
  }

  /** Wrappers with the given prefixes can share a store, each as if it had one of its own and
      whatever the order of their calls, exactly when no prefix with "__" added starts another. */
  lemma PrefixKeysShareIff(prefixes: iset<string>)
    ensures Simulates(PrefixPlacement(), OwnedBy(prefixes)) <==> PairwiseApart(prefixes, "__")
  {
    var place := PrefixPlacement();
    SimulatesIffInjective(place, OwnedBy(prefixes));
    if PairwiseApart(prefixes, "__") {
      forall o, o' | o in OwnedBy(prefixes) && o' in OwnedBy(prefixes) && place(o) == place(o') ensures o == o' {
        ApartOwnersApart(o, o');
      }
    } else {
      var p, p' :| p in prefixes && p' in prefixes && p != p' && !Apart(p + "__", p' + "__");
      PrefixesDisjoint(p, p', None);
      var k, k' :| PrefixKey(k, p, None) == PrefixKey(k', p', None);
      assert place(Owned(p, Slot("", k))) == place(Owned(p', Slot("", k')));
      assert Owned(p, Slot("", k)) in OwnedBy(prefixes) && Owned(p', Slot("", k')) in OwnedBy(prefixes);
    }
  }

  class PrefixKeysWrapper {
    const store: Store
    const prefix: string

    constructor (store: Store, prefix: string)
      ensures this.store == store && this.prefix == prefix
    {
      this.store := store;
      this.prefix := prefix;
    }

    function OwnedSlot(collection: Option<string>, key: string): Owned {
      Owned(prefix, store.SlotOf(collection, key))
    }

    function OwnedSlots(collection: Option<string>, keys: seq<string>): (slots: seq<Owned>)
      ensures |slots| == |keys| && forall i | 0 <= i < |keys| :: slots[i] == OwnedSlot(collection, keys[i])
    {
      seq(|keys|, i requires 0 <= i < |keys| => OwnedSlot(collection, keys[i]))
    }

    function NewKey(key: string): string {
      PrefixKey(key, prefix, None)
    }

    function NewKeys(keys: seq<string>): (newKeys: seq<string>)
      ensures |newKeys| == |keys| && forall i | 0 <= i < |keys| :: newKeys[i] == NewKey(keys[i])
    {
      seq(|keys|, i requires 0 <= i < |keys| => NewKey(keys[i]))
    }

    lemma SameSlots(keys: seq<string>, newKeys: seq<string>, collection: Option<string>)
      requires newKeys == NewKeys(keys)
      ensures store.SlotsOf(collection, newKeys) == PlaceAll(PrefixPlacement(), OwnedSlots(collection, keys))
    {
    }

    method Get(key: string, collection: Option<string>, now: Time) returns (r: Option<Dict>)
      ensures Outcome(store.data, Got(r))
           == Step(old(store.data), PlaceCall(PrefixPlacement(), Call.Get(OwnedSlot(collection, key))), now)
    {
      r := store.Get(NewKey(key), collection, now);
    }

    method GetMany(keys: seq<string>, collection: Option<string>, now: Time) returns (r: seq<Option<Dict>>)
      ensures Outcome(store.data, GotMany(r))
           == Step(old(store.data), PlaceCall(PrefixPlacement(), Call.GetMany(OwnedSlots(collection, keys))), now)
    {
      var newKeys := NewKeys(keys);
      StandingStill(store.data, store.SlotsOf(collection, newKeys), [], NoTtl, now);
      r := store.GetMany(newKeys, collection, StillAt(now));
      SameSlots(keys, newKeys, collection);
    }

    method Ttl(key: string, collection: Option<string>, now: Time) returns (r: Reading)
      ensures Outcome(store.data, Read(r))
           == Step(old(store.data), PlaceCall(PrefixPlacement(), Call.Ttl(OwnedSlot(collection, key))), now)
    {
      r := store.Ttl(NewKey(key), collection, now, now);
    }

    method TtlMany(keys: seq<string>, collection: Option<string>, now: Time) returns (r: seq<Reading>)
      ensures Outcome(store.data, ReadMany(r))
           == Step(old(store.data), PlaceCall(PrefixPlacement(), Call.TtlMany(OwnedSlots(collection, keys))), now)
    {
      var newKeys := NewKeys(keys);
      StandingStill(store.data, store.SlotsOf(collection, newKeys), [], NoTtl, now);
      r := store.TtlMany(newKeys, collection, StillAt(now), StillAt(now));
      SameSlots(keys, newKeys, collection);
    }

    method Put(key: string, value: Dict, collection: Option<string>, ttl: Option<real>, now: Time)
      returns (r: Result<()>)
      modifies store`data
      ensures Outcome(store.data, if r.Ok? then Stored else Raised(r.error))
           == Step(old(store.data), PlaceCall(PrefixPlacement(), Call.Put(OwnedSlot(collection, key), value, ttl)), now)
    {
      r := store.Put(NewKey(key), value, collection, ttl, now);
    }

    method PutMany(keys: seq<string>, values: seq<Dict>, collection: Option<string>, ttl: TtlArg, now: Time)
      returns (r: Result<()>)
      modifies store`data
      ensures Outcome(store.data, if r.Ok? then Stored else Raised(r.error))
           == Step(old(store.data),
                   PlaceCall(PrefixPlacement(), Call.PutMany(OwnedSlots(collection, keys), values, ttl)), now)
    {
      var newKeys := NewKeys(keys);
      SameSlots(keys, newKeys, collection);
      StandingStill(store.data, store.SlotsOf(collection, newKeys), values, ttl, now);
      r := store.PutMany(newKeys, values, collection, ttl, StillAt(now));
    }

    method Delete(key: string, collection: Option<string>, ghost now: Time) returns (existed: bool)
      modifies store`data
      ensures Outcome(store.data, Deleted(existed))
           == Step(old(store.data), PlaceCall(PrefixPlacement(), Call.Delete(OwnedSlot(collection, key))), now)
    {
      existed := store.Delete(NewKey(key), collection);
    }

    method DeleteMany(keys: seq<string>, collection: Option<string>, ghost now: Time) returns (deletedCount: int)
      modifies store`data
      ensures Outcome(store.data, DeletedMany(deletedCount))
           == Step(old(store.data), PlaceCall(PrefixPlacement(), Call.DeleteMany(OwnedSlots(collection, keys))), now)
    {
      var newKeys := NewKeys(keys);
      SameSlots(keys, newKeys, collection);
      DeleteManyShape(store.data, PlaceAll(PrefixPlacement(), OwnedSlots(collection, keys)), now);
      assert PlaceCall(PrefixPlacement(), Call.DeleteMany(OwnedSlots(collection, keys)))
          == Call.DeleteMany(PlaceAll(PrefixPlacement(), OwnedSlots(collection, keys)));
      deletedCount := store.DeleteMany(newKeys, collection);
    }
  }
}
