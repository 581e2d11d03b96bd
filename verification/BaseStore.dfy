/** stores/base.py: the store operations that every concrete store inherits, over an
    ideal `_get/_put/_delete_managed_entry` that never evicts. First-use setup is the
    subject of SetupProtocol. */
module BaseStores {
  import opened Prelude
  import opened TimeToLive
  import opened ManagedEntries
  import opened KeyValue

  const DEFAULT_COLLECTION_NAME := "default_collection"

  /** `collection or default`: None and the empty string both select the default. */
  function CollectionOr(collection: Option<string>, default: string): string {
    if collection.None? || collection.value == "" then default else collection.value
  }

  predicate NamesDefault(collection: Option<string>, default: string) {
    collection.None? || collection.value == "" || collection.value == default
  }

  /** Two calls mean the same slot exactly when they name the same key, and the same collection or
      both the default one, which None and "" stand for. */
  lemma SameSlotIff(default: string, c: Option<string>, key: string, c': Option<string>, key': string)
    ensures Slot(CollectionOr(c, default), key) == Slot(CollectionOr(c', default), key')
       <==> key == key' && (c == c' || (NamesDefault(c, default) && NamesDefault(c', default)))
  {
  }

  function SlotsIn(collection: string, keys: seq<string>): (slots: seq<Slot>)
    ensures |slots| == |keys| && forall i | 0 <= i < |keys| :: slots[i] == Slot(collection, keys[i])
  {
    seq(|keys|, i requires 0 <= i < |keys| => Slot(collection, keys[i]))
  }

  /** What a store keeps of a managed entry. */
  function Kept(e: ManagedEntry): Entry
    reads e
  {
    Entry(e.value, e.createdAt, e.expiresAt)
  }

  class Store {
    var data: Table<Slot>
    const defaultCollection: string

    constructor (defaultCollection: Option<string>)
      ensures data == map[]
      ensures this.defaultCollection == CollectionOr(defaultCollection, DEFAULT_COLLECTION_NAME)
    {
      this.data := map[];
      this.defaultCollection := CollectionOr(defaultCollection, DEFAULT_COLLECTION_NAME);
    }

    function SlotOf(collection: Option<string>, key: string): Slot {
      Slot(CollectionOr(collection, defaultCollection), key)
    }

    function SlotsOf(collection: Option<string>, keys: seq<string>): seq<Slot> {
      SlotsIn(CollectionOr(collection, defaultCollection), keys)
    }

    // ----- The ideal hooks -----

    /** A fresh managed entry rebuilt from what is kept, its TTL computed at `built`. */
    method GetManagedEntry(collection: string, key: string, built: Time) returns (entry: ManagedEntry?)
      ensures entry != null <==> Slot(collection, key) in data
      ensures entry != null ==> fresh(entry) && Kept(entry) == data[Slot(collection, key)]
      ensures entry != null ==> ReadEntry(Kept(entry), built).ttl == entry.ttl
    {
      var slot := Slot(collection, key);
      if slot in data {
        var kept := data[slot];
        entry := new ManagedEntry(kept.value, kept.created, None, kept.expires, built);
      } else {
        entry := null;
      }
    }

    method PutManagedEntry(collection: string, key: string, entry: ManagedEntry)
      modifies this`data
      ensures data == old(data)[Slot(collection, key) := Kept(entry)]
    {
      data := data[Slot(collection, key) := Kept(entry)];
    }

    method DeleteManagedEntry(collection: string, key: string) returns (existed: bool)
      modifies this`data
      ensures existed == (Slot(collection, key) in old(data))
      ensures data == old(data) - {Slot(collection, key)}
    {
      existed := Slot(collection, key) in data;
      data := data - {Slot(collection, key)};
    }

    /** `_get_managed_entries` */
    method GetManagedEntries(collection: string, keys: seq<string>, built: Clock) returns (entries: seq<ManagedEntry?>)
      ensures |entries| == |keys|
      ensures forall i | 0 <= i < |keys| :: entries[i] != null <==> Slot(collection, keys[i]) in data
      ensures forall i | 0 <= i < |keys| && entries[i] != null ::
        && Kept(entries[i]) == data[Slot(collection, keys[i])]
        && ReadEntry(Kept(entries[i]), built(i)).ttl == entries[i].ttl
    {
      entries := [];
      for i := 0 to |keys|
        invariant |entries| == i
        invariant forall j | 0 <= j < i :: entries[j] != null <==> Slot(collection, keys[j]) in data
        invariant forall j | 0 <= j < i && entries[j] != null ::
          && Kept(entries[j]) == data[Slot(collection, keys[j])]
          && ReadEntry(Kept(entries[j]), built(j)).ttl == entries[j].ttl
      {
        var entry := GetManagedEntry(collection, keys[i], built(i));
        entries := entries + [entry];
      }
    }

    // ----- Single operations -----

    method Get(key: string, collection: Option<string>, now: Time) returns (r: Option<Dict>)
      ensures r == GetOne(data, SlotOf(collection, key), now)
    {
      var entry := GetManagedEntry(CollectionOr(collection, defaultCollection), key, now);
      if entry == null || entry.IsExpired(now) {
        return None;
      }
      return Some(entry.value);
    }

    /** The clock is read twice: for the TTL, then for the expiry test. When it does not run
        backwards, a TTL reported beside a live value is strictly positive. */
    method Ttl(key: string, collection: Option<string>, built: Time, checked: Time) returns (r: Reading)
      ensures r == TtlOne(data, SlotOf(collection, key), built, checked)
      ensures built <= checked && r.ttl.Some? ==> r.value.Some? && r.ttl.value > 0.0
    {
      var entry := GetManagedEntry(CollectionOr(collection, defaultCollection), key, built);
      if entry == null || entry.IsExpired(checked) {
        return MISSING;
      }
      return Reading(Some(entry.value), entry.ttl);
    }

    method Put(key: string, value: Dict, collection: Option<string>, ttl: Option<real>, now: Time)
      returns (r: Result<()>)
      modifies this`data
      ensures match PutOne(old(data), SlotOf(collection, key), value, ttl, now)
              case Ok(after) => r.Ok? && data == after
              case Err(e) => r == Err(e) && data == old(data)
    {
      match ValidateTtl(ttl) {
        case Err(e) =>
          return Err(e);
        case Ok(valid) =>
          var entry := new ManagedEntry(value, Some(now), valid, None, now);
          PutManagedEntry(CollectionOr(collection, defaultCollection), key, entry);
          return Ok(());
      }
    }

    method Delete(key: string, collection: Option<string>) returns (existed: bool)
      modifies this`data
      ensures existed == (SlotOf(collection, key) in old(data))
      ensures data == old(data) - {SlotOf(collection, key)}
    {
      existed := DeleteManagedEntry(CollectionOr(collection, defaultCollection), key);
    }

    // ----- Bulk operations -----

    /** All entries are fetched first. The clock is read anew for every entry, here and below. */
    method GetMany(keys: seq<string>, collection: Option<string>, clock: Clock) returns (r: seq<Option<Dict>>)
      ensures r == GetEach(data, SlotsOf(collection, keys), clock)
    {
      var entries := GetManagedEntries(CollectionOr(collection, defaultCollection), keys, clock);
      r := [];
      for i := 0 to |keys|
        invariant |r| == i
        invariant forall j | 0 <= j < i :: r[j] == GetOne(data, SlotOf(collection, keys[j]), clock(j))
      {
        var entry := entries[i];
        r := r + [if entry != null && !entry.IsExpired(clock(i)) then Some(entry.value) else None];
      }
    }

    method TtlMany(keys: seq<string>, collection: Option<string>, built: Clock, checked: Clock)
      returns (r: seq<Reading>)
      ensures r == TtlEach(data, SlotsOf(collection, keys), built, checked)
    {
      var entries := GetManagedEntries(CollectionOr(collection, defaultCollection), keys, built);
      r := [];
      for i := 0 to |keys|
        invariant |r| == i
        invariant forall j | 0 <= j < i :: r[j] == TtlOne(data, SlotOf(collection, keys[j]), built(j), checked(j))
      {
        var entry := entries[i];
        var live := entry != null && !entry.IsExpired(checked(i));
        r := r + [if live then Reading(Some(entry.value), entry.ttl) else MISSING];
      }
    }

    /** `_put_managed_entries`, on lists that `zip(..., strict=True)` accepts. */
    method PutManagedEntries(collection: string, keys: seq<string>, entries: seq<ManagedEntry>)
      requires |keys| == |entries|
      modifies this`data
      ensures data == PutAll(old(data), SlotsIn(collection, keys), KeptAll(entries))
    {
      var slots, kept := SlotsIn(collection, keys), KeptAll(entries);
      for i := 0 to |keys|
        invariant data == PutAll(old(data), slots[..i], kept[..i])
      {
        PutManagedEntry(collection, keys[i], entries[i]);
        assert slots[..i + 1][..i] == slots[..i] && kept[..i + 1][..i] == kept[..i];
      }
      assert slots[..|keys|] == slots && kept[..|keys|] == kept;
    }

    /** The loop of put_many that wraps every value with its TTL. */
    method NewManagedEntries(values: seq<Dict>, ttls: seq<Option<real>>, clock: Clock)
      returns (entries: seq<ManagedEntry>)
      requires |ttls| == |values|
      ensures fresh(entries)
      ensures KeptAll(entries) == NewEach(values, ttls, clock)
    {
      entries := [];
      for i := 0 to |values|
        invariant |entries| == i && fresh(entries)
        invariant forall j | 0 <= j < i :: Kept(entries[j]) == NewEntry(values[j], ttls[j], clock(j))
      {
        var entry := new ManagedEntry(values[i], Some(clock(i)), ttls[i], None, clock(i));
        entries := entries + [entry];
      }
    }

    /** Nothing is stored before every argument has been checked. */
    method PutMany(keys: seq<string>, values: seq<Dict>, collection: Option<string>, ttl: TtlArg, clock: Clock)
      returns (r: Result<()>)
      modifies this`data
      ensures match PutEach(old(data), SlotsOf(collection, keys), values, ttl, clock)
              case Ok(after) => r.Ok? && data == after
              case Err(e) => r == Err(e) && data == old(data)
    {
      if |keys| != |values| {
        return Err(CountMismatch);
      }
      if ttl.List? && ttl.ts != [] && |ttl.ts| != |keys| {
        return Err(CountMismatch);
      }
      PrepareTtlsOutcome(ttl, |keys|);
      match PrepareTtls(ttl, |keys|) {
        case Err(e) =>
          return Err(e);
        case Ok(ttls) =>
          var entries := NewManagedEntries(values, ttls, clock);
          PutManagedEntries(CollectionOr(collection, defaultCollection), keys, entries);
          return Ok(());
      }
    }

    method DeleteMany(keys: seq<string>, collection: Option<string>) returns (deletedCount: int)
      modifies this`data
      ensures data == DeleteAll(old(data), SlotsOf(collection, keys))
      ensures deletedCount == |old(data)| - |data|
    {
      deletedCount := 0;
      var slots := SlotsOf(collection, keys);
      for i := 0 to |keys|
        invariant data == DeleteAll(old(data), slots[..i])
        invariant deletedCount == |old(data)| - |data|
      {
        RemovalSize(data, slots[i]);
        var existed := DeleteManagedEntry(CollectionOr(collection, defaultCollection), keys[i]);
        if existed {
          deletedCount := deletedCount + 1;
        }
        assert slots[..i + 1][..i] == slots[..i];
      }
      assert slots[..|keys|] == slots;
    }
  }

  function KeptAll(entries: seq<ManagedEntry>): (kept: seq<Entry>)
    reads entries
    ensures |kept| == |entries| && forall i | 0 <= i < |kept| :: kept[i] == Kept(entries[i])
  {
    if entries == [] then [] else [Kept(entries[0])] + KeptAll(entries[1..])
  }
}
