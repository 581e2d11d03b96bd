/** A wrapper that stores every key under another name. When no two keys in use are stored
    under the same name, callers cannot tell the wrapper from a store of their own. */
module KeyPlacement {
  import opened Prelude
  import opened TimeToLive
  import opened KeyValue

  function PlaceAll<A, B>(place: A -> B, keys: seq<A>): (placed: seq<B>)
    ensures |placed| == |keys| && forall i | 0 <= i < |keys| :: placed[i] == place(keys[i])
  {
    seq(|keys|, i requires 0 <= i < |keys| => place(keys[i]))
  }

  /** The call that the wrapper makes on the wrapped store. */
  function PlaceCall<A, B>(place: A -> B, call: Call<A>): Call<B> {
    match call
    case Get(k) => Get(place(k))
    case GetMany(ks) => GetMany(PlaceAll(place, ks))
    case Ttl(k) => Ttl(place(k))
    case TtlMany(ks) => TtlMany(PlaceAll(place, ks))
    case Put(k, v, ttl) => Put(place(k), v, ttl)
    case PutMany(ks, vs, ttls) => PutMany(PlaceAll(place, ks), vs, ttls)
    case Delete(k) => Delete(place(k))
    case DeleteMany(ks) => DeleteMany(PlaceAll(place, ks))
  }

  function PlaceRun<A, B>(place: A -> B, run: seq<Timed<A>>): (placed: seq<Timed<B>>)
    ensures |placed| == |run|
    ensures forall i | 0 <= i < |run| :: placed[i] == Timed(run[i].now, PlaceCall(place, run[i].call))
  {
    seq(|run|, i requires 0 <= i < |run| => Timed(run[i].now, PlaceCall(place, run[i].call)))
  }

  /** Every key the call names is in scope. */
  ghost predicate CallInScope<A>(call: Call<A>, scope: iset<A>) {
    match call
    case Get(k) => k in scope
    case Ttl(k) => k in scope
    case Put(k, _, _) => k in scope
    case Delete(k) => k in scope
    case GetMany(ks) => forall k | k in ks :: k in scope
    case TtlMany(ks) => forall k | k in ks :: k in scope
    case PutMany(ks, _, _) => forall k | k in ks :: k in scope
    case DeleteMany(ks) => forall k | k in ks :: k in scope
  }

  ghost predicate Injective<A(!new), B>(place: A -> B, scope: iset<A>) {
    forall a, a' | a in scope && a' in scope && place(a) == place(a') :: a == a'
  }

  /** The wrapped table holds, under the placed keys, what the callers' table holds. */
  ghost predicate Represents<A(!new), B>(place: A -> B, scope: iset<A>, own: Table<A>, wrapped: Table<B>) {
    forall a | a in scope ::
      (a in own <==> place(a) in wrapped) && (a in own ==> wrapped[place(a)] == own[a])
  }

  lemma PutRepresents<A(!new), B>(place: A -> B, scope: iset<A>, own: Table<A>, wrapped: Table<B>, k: A, e: Entry)
    requires Injective(place, scope) && Represents(place, scope, own, wrapped) && k in scope
    ensures Represents(place, scope, own[k := e], wrapped[place(k) := e])
  {
  }

  lemma DeleteRepresents<A(!new), B>(place: A -> B, scope: iset<A>, own: Table<A>, wrapped: Table<B>, k: A)
    requires Injective(place, scope) && Represents(place, scope, own, wrapped) && k in scope
    ensures Represents(place, scope, own - {k}, wrapped - {place(k)})
  {
  }

  lemma {:induction false} PutAllRepresents<A(!new), B>(
      place: A -> B, scope: iset<A>, own: Table<A>, wrapped: Table<B>, keys: seq<A>, entries: seq<Entry>)
    requires Injective(place, scope) && Represents(place, scope, own, wrapped)
    requires |keys| == |entries| && forall k | k in keys :: k in scope
    ensures Represents(place, scope, PutAll(own, keys, entries), PutAll(wrapped, PlaceAll(place, keys), entries))
    decreases |keys|
  {
    if keys != [] {
      var n := |keys| - 1;
      PutAllRepresents(place, scope, own, wrapped, keys[..n], entries[..n]);
      assert PlaceAll(place, keys)[..n] == PlaceAll(place, keys[..n]);
      PutRepresents(place, scope, PutAll(own, keys[..n], entries[..n]),
                    PutAll(wrapped, PlaceAll(place, keys[..n]), entries[..n]), keys[n], entries[n]);
    }
  }

  lemma DeleteLast<K>(t: Table<K>, keys: seq<K>, before: seq<K>, k: K)
    requires keys == before + [k]
    ensures DeleteAll(t, keys) == DeleteAll(t, before) - {k}
    ensures |DeleteAll(t, keys)| == |DeleteAll(t, before)| - if k in DeleteAll(t, before) then 1 else 0
  {
    assert keys[..|keys| - 1] == before;
    RemovalSize(DeleteAll(t, before), k);
  }

  lemma PlaceAllAppend<A, B>(place: A -> B, keys: seq<A>, k: A)
    ensures PlaceAll(place, keys + [k]) == PlaceAll(place, keys) + [place(k)]
  {
  }

  lemma {:induction false} DeleteAllRepresents<A(!new), B>(
      place: A -> B, scope: iset<A>, own: Table<A>, wrapped: Table<B>, keys: seq<A>)
    requires Injective(place, scope) && Represents(place, scope, own, wrapped)
    requires forall k | k in keys :: k in scope
    ensures Represents(place, scope, DeleteAll(own, keys), DeleteAll(wrapped, PlaceAll(place, keys)))
    decreases |keys|
  {
    if keys != [] {
      var before, k := keys[..|keys| - 1], keys[|keys| - 1];
      assert keys == before + [k];
      DeleteAllRepresents(place, scope, own, wrapped, before);
      PlaceAllAppend(place, before, k);
      DeleteLast(wrapped, PlaceAll(place, keys), PlaceAll(place, before), place(k));
      DeleteRepresents(place, scope, DeleteAll(own, before), DeleteAll(wrapped, PlaceAll(place, before)), k);
    }
  }

  lemma {:induction false} DeleteCountsAgree<A(!new), B>(
      place: A -> B, scope: iset<A>, own: Table<A>, wrapped: Table<B>, keys: seq<A>)
    requires Injective(place, scope) && Represents(place, scope, own, wrapped)
    requires forall k | k in keys :: k in scope
    ensures |own| - |DeleteAll(own, keys)| == |wrapped| - |DeleteAll(wrapped, PlaceAll(place, keys))|
    decreases |keys|
  {
    if keys != [] {
      var before, k := keys[..|keys| - 1], keys[|keys| - 1];
      assert keys == before + [k];
      DeleteCountsAgree(place, scope, own, wrapped, before);
      DeleteAllRepresents(place, scope, own, wrapped, before);
      PlaceAllAppend(place, before, k);
      DeleteLast(own, keys, before, k);
      DeleteLast(wrapped, PlaceAll(place, keys), PlaceAll(place, before), place(k));
    }
  }

  lemma ReadsAgree<A(!new), B>(
      place: A -> B, scope: iset<A>, own: Table<A>, wrapped: Table<B>, keys: seq<A>, now: Time)
    requires Represents(place, scope, own, wrapped) && forall k | k in keys :: k in scope
    ensures GetAll(wrapped, PlaceAll(place, keys), now) == GetAll(own, keys, now)
    ensures TtlAll(wrapped, PlaceAll(place, keys), now, now) == TtlAll(own, keys, now, now)
  {
    forall i | 0 <= i < |keys|
      ensures Live(wrapped, place(keys[i]), now) == Live(own, keys[i], now)
    {
      assert keys[i] in scope;
    }
  }

  lemma BulkPutAgrees<A(!new), B>(
      place: A -> B, scope: iset<A>, own: Table<A>, wrapped: Table<B>,
      keys: seq<A>, values: seq<Dict>, ttl: TtlArg, now: Time)
    requires Injective(place, scope) && Represents(place, scope, own, wrapped)
    requires forall k | k in keys :: k in scope
    ensures
      match PutBulk(own, keys, values, ttl, now)
      case Err(e) => PutBulk(wrapped, PlaceAll(place, keys), values, ttl, now) == Err(e)
      case Ok(own') =>
        && PutBulk(wrapped, PlaceAll(place, keys), values, ttl, now).Ok?
        && Represents(place, scope, own', PutBulk(wrapped, PlaceAll(place, keys), values, ttl, now).value)
  {
    PrepareTtlsOutcome(ttl, |keys|);
    if PutBulk(own, keys, values, ttl, now).Ok? {
      PutAllRepresents(place, scope, own, wrapped, keys, NewEntries(values, PrepareTtls(ttl, |keys|).value, now));
    }
  }

  predicate IsRead<K>(call: Call<K>) {
    call.Get? || call.Ttl? || call.GetMany? || call.TtlMany?
  }

  lemma ReadSimulates<A(!new), B>(
      place: A -> B, scope: iset<A>, own: Table<A>, wrapped: Table<B>, call: Call<A>, now: Time)
    requires Represents(place, scope, own, wrapped) && CallInScope(call, scope) && IsRead(call)
    ensures Step(wrapped, PlaceCall(place, call), now) == Outcome(wrapped, Step(own, call, now).reply)
    ensures Step(own, call, now).state == own
  {
    match call
    case Get(k) => ReadsAgree(place, scope, own, wrapped, [k], now);
    case Ttl(k) => ReadsAgree(place, scope, own, wrapped, [k], now);
    case GetMany(ks) => ReadsAgree(place, scope, own, wrapped, ks, now);
    case TtlMany(ks) => ReadsAgree(place, scope, own, wrapped, ks, now);
    case _ =>
  }

  lemma WriteSimulates<A(!new), B>(
      place: A -> B, scope: iset<A>, own: Table<A>, wrapped: Table<B>, call: Call<A>, now: Time)
    requires Injective(place, scope) && Represents(place, scope, own, wrapped) && CallInScope(call, scope)
    requires !IsRead(call)
    ensures Step(wrapped, PlaceCall(place, call), now).reply == Step(own, call, now).reply
    ensures Represents(place, scope, Step(own, call, now).state, Step(wrapped, PlaceCall(place, call), now).state)
  {
    match call
    case Put(k, v, ttl) => PutRepresents(place, scope, own, wrapped, k, NewEntry(v, ttl, now));
    case PutMany(ks, vs, ttls) => BulkPutAgrees(place, scope, own, wrapped, ks, vs, ttls, now);
    case Delete(k) => DeleteRepresents(place, scope, own, wrapped, k);
    case DeleteMany(ks) =>
      DeleteAllRepresents(place, scope, own, wrapped, ks);
      DeleteCountsAgree(place, scope, own, wrapped, ks);
    case _ =>
  }

  /** One call: the same reply, and the wrapped table still stands for the callers' table. */
  lemma CallSimulates<A(!new), B>(
      place: A -> B, scope: iset<A>, own: Table<A>, wrapped: Table<B>, call: Call<A>, now: Time)
    requires Injective(place, scope) && Represents(place, scope, own, wrapped) && CallInScope(call, scope)
    ensures Step(wrapped, PlaceCall(place, call), now).reply == Step(own, call, now).reply
    ensures Represents(place, scope, Step(own, call, now).state, Step(wrapped, PlaceCall(place, call), now).state)
  {
    if IsRead(call) {
      ReadSimulates(place, scope, own, wrapped, call, now);
    } else {
      WriteSimulates(place, scope, own, wrapped, call, now);
    }
  }

  lemma {:induction false} RunSimulates<A(!new), B>(place: A -> B, scope: iset<A>, run: seq<Timed<A>>, n: nat)
    requires Injective(place, scope) && n <= |run|
    requires forall i | 0 <= i < |run| :: CallInScope(run[i].call, scope)
    ensures Represents(place, scope, TableAfter(map[], run[..n]), TableAfter(map[], PlaceRun(place, run)[..n]))
  {
    if n > 0 {
      RunSimulates(place, scope, run, n - 1);
      StepOn(map[], run, n);
      StepOn(map[], PlaceRun(place, run), n);
      CallSimulates(place, scope, TableAfter(map[], run[..n - 1]), TableAfter(map[], PlaceRun(place, run)[..n - 1]),
                    run[n - 1].call, run[n - 1].now);
    }
  }

  /** On every run whose keys are in scope, the wrapped store answers every placed call as a
      store of the callers' own would. */
  ghost predicate Simulates<A(!new), B>(place: A -> B, scope: iset<A>) {
    forall run: seq<Timed<A>>, i: nat
      | i < |run| && forall j | 0 <= j < |run| :: CallInScope(run[j].call, scope)
      :: ReplyAt(map[], PlaceRun(place, run), i) == ReplyAt(map[], run, i)
  }

  lemma InjectiveSimulates<A(!new), B>(place: A -> B, scope: iset<A>)
    requires Injective(place, scope)
    ensures Simulates(place, scope)
  {
    forall run: seq<Timed<A>>, i: nat
      | i < |run| && forall j | 0 <= j < |run| :: CallInScope(run[j].call, scope)
      ensures ReplyAt(map[], PlaceRun(place, run), i) == ReplyAt(map[], run, i)
    {
      RunSimulates(place, scope, run, i);
      CallSimulates(place, scope, TableAfter(map[], run[..i]), TableAfter(map[], PlaceRun(place, run)[..i]),
                    run[i].call, run[i].now);
    }
  }

  /** One collision is enough to be noticed: store under the one key, look under the other. */
  lemma CollisionIsNoticed<A(!new), B>(place: A -> B, scope: iset<A>, a: A, a': A)
    requires a in scope && a' in scope && a != a' && place(a) == place(a')
    ensures !Simulates(place, scope)
  {
    var run := [Timed(0.0, Put(a, map[], None)), Timed(0.0, Get(a'))];
    StepOn(map[], run, 1);
    StepOn(map[], PlaceRun(place, run), 1);
    assert run[..1][..0] == [] && PlaceRun(place, run)[..0] == [];
    assert ReplyAt(map[], run, 1) == Got(None);
    assert ReplyAt(map[], PlaceRun(place, run), 1) == Got(Some(map[]));
    assert forall j | 0 <= j < |run| :: CallInScope(run[j].call, scope);
  }

  /** Callers cannot tell the wrapped store from their own exactly when no two keys in scope
      are placed under the same name. */
  lemma SimulatesIffInjective<A(!new), B>(place: A -> B, scope: iset<A>)
    ensures Simulates(place, scope) <==> Injective(place, scope)
  {
    if Injective(place, scope) {
      InjectiveSimulates(place, scope);
    } else {
      var a, a' :| a in scope && a' in scope && place(a) == place(a') && a != a';
      CollisionIsNoticed(place, scope, a, a');
    }
  }
}
