/** Two stores with different default collections: a call without a collection then means one
    name in the primary and another in the cache. Each call is described on the cache's table
    with those two names exchanged. */
module PassthroughNames {
  import opened Prelude
  import opened TimeToLive
  import opened KeyValue
  import opened BaseStores
  import opened TtlClamps

  function Exchanged(name: string, a: string, b: string): string {
    if name == a then b else if name == b then a else name
  }

  function ExchangedSlot(s: Slot, a: string, b: string): Slot {
    Slot(Exchanged(s.collection, a, b), s.key)
  }

  function ExchangedSlots(t: Table<Slot>, a: string, b: string): set<Slot> {
    set s | s in t :: ExchangedSlot(s, a, b)
  }

  lemma ExchangedTwice(s: Slot, a: string, b: string)
    ensures ExchangedSlot(ExchangedSlot(s, a, b), a, b) == s
  {
  }

  lemma ExchangedDomain(t: Table<Slot>, a: string, b: string)
    ensures forall s :: s in ExchangedSlots(t, a, b) <==> ExchangedSlot(s, a, b) in t
  {
    forall s ensures s in ExchangedSlots(t, a, b) <==> ExchangedSlot(s, a, b) in t {
      ExchangedTwice(s, a, b);
    }
  }

  /** The table with the collections a and b exchanged. */
  function SeenAs(t: Table<Slot>, a: string, b: string): Table<Slot> {
    ExchangedDomain(t, a, b);
    map s | s in ExchangedSlots(t, a, b) :: t[ExchangedSlot(s, a, b)]
  }

  lemma SeenCells(t: Table<Slot>, a: string, b: string)
    ensures forall s :: s in SeenAs(t, a, b) <==> ExchangedSlot(s, a, b) in t
    ensures forall s | s in SeenAs(t, a, b) :: SeenAs(t, a, b)[s] == t[ExchangedSlot(s, a, b)]
  {
    ExchangedDomain(t, a, b);
  }

  lemma SeenAsItself(t: Table<Slot>, a: string)
    ensures SeenAs(t, a, a) == t
  {
    SeenCells(t, a, a);
    assert forall s: Slot :: ExchangedSlot(s, a, a) == s;
  }

  lemma SeenTwice(t: Table<Slot>, a: string, b: string)
    ensures SeenAs(SeenAs(t, a, b), a, b) == t
  {
    SeenCells(t, a, b);
    SeenCells(SeenAs(t, a, b), a, b);
    assert forall s: Slot :: ExchangedSlot(ExchangedSlot(s, a, b), a, b) == s;
  }

  // ----- What a call sees and does -----

  lemma SeenLive(t: Table<Slot>, a: string, b: string, key: string, now: Time)
    ensures Live(SeenAs(t, a, b), Slot(a, key), now) == Live(t, Slot(b, key), now)
  {
    SeenCells(t, a, b);
    assert ExchangedSlot(Slot(a, key), a, b) == Slot(b, key);
  }

  lemma SeenReads(t: Table<Slot>, a: string, b: string, keys: seq<string>, now: Time)
    ensures GetAll(SeenAs(t, a, b), SlotsIn(a, keys), now) == GetAll(t, SlotsIn(b, keys), now)
    ensures TtlAll(SeenAs(t, a, b), SlotsIn(a, keys), now, now) == TtlAll(t, SlotsIn(b, keys), now, now)
  {
    forall i | 0 <= i < |keys|
      ensures Live(SeenAs(t, a, b), Slot(a, keys[i]), now) == Live(t, Slot(b, keys[i]), now)
    {
      SeenLive(t, a, b, keys[i], now);
    }
  }

  lemma OneSlotAt(a: string, b: string, key: string, s: Slot)
    ensures ExchangedSlot(s, a, b) == Slot(b, key) <==> s == Slot(a, key)
  {
    ExchangedTwice(s, a, b);
  }

  lemma SeenPut(t: Table<Slot>, a: string, b: string, key: string, e: Entry)
    ensures SeenAs(t[Slot(b, key) := e], a, b) == SeenAs(t, a, b)[Slot(a, key) := e]
  {
    var seen, more := SeenAs(t, a, b)[Slot(a, key) := e], SeenAs(t[Slot(b, key) := e], a, b);
    SeenCells(t, a, b);
    SeenCells(t[Slot(b, key) := e], a, b);
    forall s: Slot ensures (s in more <==> s in seen) && (s in more ==> more[s] == seen[s]) {
      OneSlotAt(a, b, key, s);
    }
  }

  lemma SeenDelete(t: Table<Slot>, a: string, b: string, key: string)
    ensures SeenAs(t - {Slot(b, key)}, a, b) == SeenAs(t, a, b) - {Slot(a, key)}
  {
    var seen, rest := SeenAs(t, a, b) - {Slot(a, key)}, SeenAs(t - {Slot(b, key)}, a, b);
    SeenCells(t, a, b);
    SeenCells(t - {Slot(b, key)}, a, b);
    forall s: Slot ensures (s in rest <==> s in seen) && (s in rest ==> rest[s] == seen[s]) {
      OneSlotAt(a, b, key, s);
    }
  }

  lemma SlotsInPrefix(where: string, keys: seq<string>, n: nat)
    requires n <= |keys|
    ensures SlotsIn(where, keys)[..n] == SlotsIn(where, keys[..n])
  {
  }

  lemma {:induction false} SeenDeleteAll(t: Table<Slot>, a: string, b: string, keys: seq<string>)
    ensures SeenAs(DeleteAll(t, SlotsIn(b, keys)), a, b) == DeleteAll(SeenAs(t, a, b), SlotsIn(a, keys))
  {
    if keys != [] {
      var n := |keys| - 1;
      SeenDeleteAll(t, a, b, keys[..n]);
      SlotsInPrefix(a, keys, n);
      SlotsInPrefix(b, keys, n);
      SeenDelete(DeleteAll(t, SlotsIn(b, keys[..n])), a, b, keys[n]);
    }
  }

  lemma {:induction false} SeenPutAll(t: Table<Slot>, a: string, b: string, keys: seq<string>, entries: seq<Entry>)
    requires |keys| == |entries|
    ensures SeenAs(PutAll(t, SlotsIn(b, keys), entries), a, b) == PutAll(SeenAs(t, a, b), SlotsIn(a, keys), entries)
    decreases |keys|
  {
    if keys != [] {
      var n := |keys| - 1;
      SeenPutAll(t, a, b, keys[..n], entries[..n]);
      SlotsInPrefix(a, keys, n);
      SlotsInPrefix(b, keys, n);
      SeenPut(PutAll(t, SlotsIn(b, keys[..n]), entries[..n]), a, b, keys[n], entries[n]);
    }
  }

  lemma SeenClampedPut(
      c: Clamp, t: Table<Slot>, a: string, b: string, key: string, value: Dict, ttl: Option<real>, now: Time)
    ensures ClampedPut(c, SeenAs(t, a, b), Slot(a, key), value, ttl, now) ==
      match ClampedPut(c, t, Slot(b, key), value, ttl, now)
      case Err(e) => Err(e)
      case Ok(after) => Ok(SeenAs(after, a, b))
  {
    match ClampTtl(c, ttl)
    case Err(_) =>
    case Ok(clamped) => SeenPut(t, a, b, key, NewEntry(value, clamped, now));
  }

  lemma SeenPutBulk(
      t: Table<Slot>, a: string, b: string, keys: seq<string>, values: seq<Dict>, ttl: TtlArg, now: Time)
    ensures PutBulk(SeenAs(t, a, b), SlotsIn(a, keys), values, ttl, now) ==
      match PutBulk(t, SlotsIn(b, keys), values, ttl, now)
      case Err(e) => Err(e)
      case Ok(after) => Ok(SeenAs(after, a, b))
  {
    PrepareTtlsOutcome(ttl, |keys|);
    if PutBulk(t, SlotsIn(b, keys), values, ttl, now).Ok? {
      SeenPutAll(t, a, b, keys, NewEntries(values, PrepareTtls(ttl, |keys|).value, now));
    }
  }

  lemma SeenClampedPutBulk(
      c: Clamp, t: Table<Slot>, a: string, b: string, keys: seq<string>, values: seq<Dict>, ttl: TtlArg, now: Time)
    ensures ClampedPutBulk(c, SeenAs(t, a, b), SlotsIn(a, keys), values, ttl, now) ==
      match ClampedPutBulk(c, t, SlotsIn(b, keys), values, ttl, now)
      case Err(e) => Err(e)
      case Ok(after) => Ok(SeenAs(after, a, b))
  {
    match ClampArg(c, ttl)
    case Err(_) =>
    case Ok(clamped) => SeenPutBulk(t, a, b, keys, values, clamped, now);
  }
}
