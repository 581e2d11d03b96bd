/** The two-tier wrapper on runs of calls that name a collection or leave it to the default,
    which may be one in the primary and another in the cache. */
module PassthroughDefaults {
  import opened Prelude
  import opened TimeToLive
  import opened KeyValue
  import opened BaseStores
  import opened TtlClamps
  import opened KeyPlacement
  import opened PassthroughNames
  import opened PassthroughSpec
  import opened PassthroughRefinement

  /** A call of the wrapper: its collection argument, and the operation with plain keys. */
  datatype NamedCall = NamedCall(now: Time, collection: Option<string>, call: Call<string>)

  function InCollection(name: string): string -> Slot {
    (key: string) => Slot(name, key)
  }

  /** The call as the primary takes it. */
  function Meant(default: string, n: NamedCall): Timed<Slot> {
    Timed(n.now, PlaceCall(InCollection(CollectionOr(n.collection, default)), n.call))
  }

  function MeantAll(default: string, run: seq<NamedCall>): (meant: seq<Timed<Slot>>)
    ensures |meant| == |run| && forall i | 0 <= i < |run| :: meant[i] == Meant(default, run[i])
  {
    seq(|run|, i requires 0 <= i < |run| => Meant(default, run[i]))
  }

  /** What the wrapper's methods do: the cache is used under its own name for the collection. */
  function NamedThrough(c: Clamp, primaryDefault: string, cacheDefault: string, s: Tiers<Slot>, n: NamedCall)
    : Outcome<Tiers<Slot>>
  {
    var a, b := CollectionOr(n.collection, primaryDefault), CollectionOr(n.collection, cacheDefault);
    var o := Through(c, Tiers(s.primary, SeenAs(s.cache, a, b)), Meant(primaryDefault, n).call, n.now);
    Outcome(Tiers(o.state.primary, SeenAs(o.state.cache, a, b)), o.reply)
  }

  /** The contracts of the wrapper's methods, which describe the cache as a call means it, say
      what it is afterwards. */
  lemma ContractsAreNamedCalls(
      c: Clamp, primaryDefault: string, cacheDefault: string, s: Tiers<Slot>, s': Tiers<Slot>, n: NamedCall, reply: Reply)
    requires
      var a, b := CollectionOr(n.collection, primaryDefault), CollectionOr(n.collection, cacheDefault);
      Through(c, Tiers(s.primary, SeenAs(s.cache, a, b)), Meant(primaryDefault, n).call, n.now)
        == Outcome(Tiers(s'.primary, SeenAs(s'.cache, a, b)), reply)
    ensures NamedThrough(c, primaryDefault, cacheDefault, s, n) == Outcome(s', reply)
  {
    SeenTwice(s'.cache, CollectionOr(n.collection, primaryDefault), CollectionOr(n.collection, cacheDefault));
  }

  function NamedAfter(
      c: Clamp, primaryDefault: string, cacheDefault: string, s: Tiers<Slot>, run: seq<NamedCall>, drops: seq<set<Slot>>)
    : Tiers<Slot>
    requires |run| == |drops|
  {
    if run == [] then s
    else
      var n := |run| - 1;
      NamedThrough(c, primaryDefault, cacheDefault,
                   Evict(NamedAfter(c, primaryDefault, cacheDefault, s, run[..n], drops[..n]), drops[n]), run[n]).state
  }

  function NamedReplyAt(
      c: Clamp, primaryDefault: string, cacheDefault: string, s: Tiers<Slot>, run: seq<NamedCall>,
      drops: seq<set<Slot>>, i: nat): Reply
    requires i < |run| == |drops|
  {
    NamedThrough(c, primaryDefault, cacheDefault,
                 Evict(NamedAfter(c, primaryDefault, cacheDefault, s, run[..i], drops[..i]), drops[i]), run[i]).reply
  }

  // ----- Equal defaults -----

  lemma SameDefaultStep(c: Clamp, default: string, s: Tiers<Slot>, n: NamedCall)
    ensures NamedThrough(c, default, default, s, n) == Through(c, s, Meant(default, n).call, n.now)
  {
    var a := CollectionOr(n.collection, default);
    SeenAsItself(s.cache, a);
    SeenAsItself(Through(c, s, Meant(default, n).call, n.now).state.cache, a);
  }

  lemma {:induction false} SameDefaultRun(
      c: Clamp, default: string, s: Tiers<Slot>, run: seq<NamedCall>, drops: seq<set<Slot>>)
    requires |run| == |drops|
    ensures NamedAfter(c, default, default, s, run, drops) == TiersAfter(c, s, MeantAll(default, run), drops)
    decreases |run|
  {
    if run != [] {
      var n := |run| - 1;
      SameDefaultRun(c, default, s, run[..n], drops[..n]);
      assert MeantAll(default, run)[..n] == MeantAll(default, run[..n]);
      SameDefaultStep(c, default, Evict(NamedAfter(c, default, default, s, run[..n], drops[..n]), drops[n]), run[n]);
    }
  }

  // ----- Refinement exactly for equal defaults -----

  /** Every call of every run from an empty cache is answered as by the bare primary. */
  ghost predicate NamedRefines(c: Clamp, primaryDefault: string, cacheDefault: string) {
    forall primary: Table<Slot>, run: seq<NamedCall>, drops: seq<set<Slot>>, i: nat
      | ClockRuns(MeantAll(primaryDefault, run)) && i < |run| == |drops|
      :: ReplyRefines(ReplyAt(primary, MeantAll(primaryDefault, run), i),
                      NamedReplyAt(c, primaryDefault, cacheDefault, Tiers(primary, map[]), run, drops, i))
  }

  lemma SameDefaultRefines(maximumTtl: Option<real>, missingTtl: Option<real>, default: string)
    requires LimitsNotNegative(maximumTtl, missingTtl)
    ensures NamedRefines(CacheClamp(maximumTtl, missingTtl), default, default)
  {
    var c := CacheClamp(maximumTtl, missingTtl);
    forall primary: Table<Slot>, run: seq<NamedCall>, drops: seq<set<Slot>>, i: nat
      | ClockRuns(MeantAll(default, run)) && i < |run| == |drops|
      ensures ReplyRefines(ReplyAt(primary, MeantAll(default, run), i),
                           NamedReplyAt(c, default, default, Tiers(primary, map[]), run, drops, i))
    {
      var s := Tiers(primary, map[]);
      SameDefaultRun(c, default, s, run[..i], drops[..i]);
      assert MeantAll(default, run)[..i] == MeantAll(default, run[..i]);
      SameDefaultStep(c, default, Evict(NamedAfter(c, default, default, s, run[..i], drops[..i]), drops[i]), run[i]);
      CachedStoreRefinesPrimary(maximumTtl, missingTtl, primary, MeantAll(default, run), drops, i);
    }
  }

  /** A get without a collection puts the copy under the cache's default name. */
  lemma FirstGetFills(c: Clamp, a: string, b: string, key: string, v: Dict)
    requires Positive(c) && v != EMPTY_DICT
    ensures
      var s := NamedThrough(c, a, b, Tiers(map[Slot(a, key) := Entry(v, None, None)], map[]),
                            NamedCall(0.0, None, Get(key))).state;
      && s.primary == map[Slot(a, key) := Entry(v, None, None)]
      && GetOne(s.cache, Slot(b, key), 0.0) == Some(v)
  {
    var e := Entry(v, None, None);
    var primary := map[Slot(a, key) := e];
    var none: Table<Slot> := map[];
    SeenCells(none, a, b);
    assert SeenAs(none, a, b) == none;
    var filled := none[Slot(a, key) := FillEntry(c, e, 0.0).value];
    assert GetThrough(c, Tiers(primary, none), Slot(a, key), 0.0).state == Tiers(primary, filled);
    SeenCells(filled, a, b);
    assert ExchangedSlot(Slot(b, key), a, b) == Slot(a, key);
  }

  /** A get that names the cache's default is then served the copy. */
  lemma SecondGetHits(c: Clamp, a: string, b: string, s: Tiers<Slot>, key: string, v: Dict)
    requires b != "" && v != EMPTY_DICT && GetOne(s.cache, Slot(b, key), 0.0) == Some(v)
    ensures NamedThrough(c, a, b, s, NamedCall(0.0, Some(b), Get(key))).reply == Got(Some(v))
  {
    SeenAsItself(s.cache, b);
  }

  /** A get without a collection, then one that names the cache's default. */
  predicate TwoGets(run: seq<NamedCall>, b: string, key: string) {
    && |run| == 2
    && run[0] == NamedCall(0.0, None, Get(key)) && run[1] == NamedCall(0.0, Some(b), Get(key))
  }

  lemma GetLeavesTable(t: Table<Slot>, s: Slot, now: Time)
    ensures TableAfter(t, [Timed(now, Get(s))]) == t
  {
    assert [Timed(now, Call<Slot>.Get(s))][..0] == [];
  }

  lemma SecondGetMisses(t: Table<Slot>, meant: seq<Timed<Slot>>, x: Slot, y: Slot)
    requires |meant| == 2 && meant[0] == Timed(0.0, Get(x)) && meant[1] == Timed(0.0, Get(y)) && y !in t
    ensures ReplyAt(t, meant, 1) == Got(None) && ClockRuns(meant)
  {
    assert meant[..1] == [Timed(0.0, Get(x))];
    GetLeavesTable(t, x, 0.0);
  }

  lemma MeantGet(default: string, collection: Option<string>, key: string)
    ensures Meant(default, NamedCall(0.0, collection, Get(key)))
         == Timed(0.0, Get(Slot(CollectionOr(collection, default), key)))
  {
  }

  lemma BareGetMisses(a: string, b: string, key: string, v: Dict, run: seq<NamedCall>)
    requires a != b && b != "" && TwoGets(run, b, key)
    ensures ReplyAt(map[Slot(a, key) := Entry(v, None, None)], MeantAll(a, run), 1) == Got(None)
    ensures ClockRuns(MeantAll(a, run))
  {
    MeantGet(a, None, key);
    MeantGet(a, Some(b), key);
    SecondGetMisses(map[Slot(a, key) := Entry(v, None, None)], MeantAll(a, run), Slot(a, key), Slot(b, key));
  }

  lemma NothingDropped(s: Tiers<Slot>)
    ensures Evict(s, {}) == s
  {
    assert s.cache - {} == s.cache;
  }

  lemma SecondReply(
      c: Clamp, a: string, b: string, s: Tiers<Slot>, run: seq<NamedCall>, drops: seq<set<Slot>>)
    requires |run| == |drops| == 2 && drops[0] == {} && drops[1] == {}
    ensures NamedReplyAt(c, a, b, s, run, drops, 1)
         == NamedThrough(c, a, b, NamedThrough(c, a, b, s, run[0]).state, run[1]).reply
  {
    assert run[..1][..0] == [] && drops[..1][..0] == [];
    NothingDropped(s);
    NothingDropped(NamedThrough(c, a, b, s, run[0]).state);
    assert NamedAfter(c, a, b, s, run[..1], drops[..1]) == NamedThrough(c, a, b, s, run[0]).state;
  }

  lemma OtherDefaultServes(
      c: Clamp, a: string, b: string, key: string, v: Dict, run: seq<NamedCall>, drops: seq<set<Slot>>)
    requires Positive(c) && v != EMPTY_DICT && b != "" && TwoGets(run, b, key)
    requires |drops| == 2 && drops[0] == {} && drops[1] == {}
    ensures NamedReplyAt(c, a, b, Tiers(map[Slot(a, key) := Entry(v, None, None)], map[]), run, drops, 1) == Got(Some(v))
  {
    var s := Tiers(map[Slot(a, key) := Entry(v, None, None)], map[]);
    SecondReply(c, a, b, s, run, drops);
    FirstGetFills(c, a, b, key, v);
    SecondGetHits(c, a, b, NamedThrough(c, a, b, s, run[0]).state, key, v);
  }

  /** One reply that does not refine is enough. */
  lemma NotRefined(
      c: Clamp, a: string, b: string, primary: Table<Slot>, run: seq<NamedCall>, drops: seq<set<Slot>>, i: nat)
    requires i < |run| == |drops| && ClockRuns(MeantAll(a, run))
    ensures NamedRefines(c, a, b) ==>
      ReplyRefines(ReplyAt(primary, MeantAll(a, run), i), NamedReplyAt(c, a, b, Tiers(primary, map[]), run, drops, i))
  {
  }

  lemma TwoGetsRefute(
      c: Clamp, a: string, b: string, key: string, v: Dict, run: seq<NamedCall>, drops: seq<set<Slot>>)
    requires Positive(c) && a != b && b != "" && v != EMPTY_DICT && TwoGets(run, b, key)
    requires |drops| == 2 && drops[0] == {} && drops[1] == {}
    ensures !NamedRefines(c, a, b)
  {
    BareGetMisses(a, b, key, v, run);
    OtherDefaultServes(c, a, b, key, v, run, drops);
    NotRefined(c, a, b, map[Slot(a, key) := Entry(v, None, None)], run, drops, 1);
  }

  lemma DifferentDefaultsDoNot(c: Clamp, a: string, b: string)
    requires Positive(c) && a != b && b != ""
    ensures !NamedRefines(c, a, b)
  {
    var v: Dict := map["x" := Null];
    assert "x" in v;
    TwoGetsRefute(c, a, b, "k", v, [NamedCall(0.0, None, Get("k")), NamedCall(0.0, Some(b), Get("k"))], [{}, {}]);
  }

  /** On all runs of calls that name a collection or none, the cached store refines its primary
      exactly when the two stores have the same default collection. With different ones, what a
      call without a collection caches is served to calls that name the cache's default. */
  lemma NamedRefinesIff(
      maximumTtl: Option<real>, missingTtl: Option<real>,
      primaryDefault: Option<string>, cacheDefault: Option<string>)
    requires LimitsNotNegative(maximumTtl, missingTtl)
    ensures
      var a := CollectionOr(primaryDefault, DEFAULT_COLLECTION_NAME);
      var b := CollectionOr(cacheDefault, DEFAULT_COLLECTION_NAME);
      NamedRefines(CacheClamp(maximumTtl, missingTtl), a, b) <==> a == b
  {
    var c := CacheClamp(maximumTtl, missingTtl);
    var a := CollectionOr(primaryDefault, DEFAULT_COLLECTION_NAME);
    var b := CollectionOr(cacheDefault, DEFAULT_COLLECTION_NAME);
    PositiveUnlessNegative(maximumTtl, missingTtl);
    if a == b {
      SameDefaultRefines(maximumTtl, missingTtl, a);
    } else {
      DifferentDefaultsDoNot(c, a, b);
    }
  }
}
