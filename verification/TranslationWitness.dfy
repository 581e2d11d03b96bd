/** Every program whose functions get distinct names has a translation, and the conditions of
    AsyncTranslation are met by programs that use async and sync objects side by side. */
module TranslationWitness {
  import opened PythonAst
  import opened AsyncSemantics
  import opened RenameAsyncToSync
  import opened CoreLanguage
  import opened AsyncSimulation
  import opened AsyncTranslation
  import opened HookNames
  import opened TranslationLimits

  // ----- A translation for every program -----

  function NamesOf<W>(p: Program<W>): Pairing<W> {
    Pairing(p, p, Typing(h => map[], f => iset{}, a => iset{}, op => iset{}, iset{}), true, Lookup, Counterpart)
  }

  ghost predicate NewNamesDiffer<W>(k: Pairing<W>) {
    forall f, f' | Known(k.p, f) && Known(k.p, f') && NewName(k, f) == NewName(k, f') :: f == f'
  }

  ghost predicate WellNamed<W>(p: Program<W>) {
    forall f | f in p.defs :: IsDefinition(p.defs[f]) && p.defs[f].name == f.name
  }

  ghost function OldName<W>(k: Pairing<W>, names: set<Fn>, g: Fn): (f: Fn)
    ensures (exists f' :: f' in names && NewName(k, f') == g) ==> f in names && NewName(k, f) == g
  {
    if f' :| f' in names && NewName(k, f') == g then f' else g
  }

  ghost function OldAttribute<W>(p: Program<W>, a: string): (b: string)
    ensures (exists b' :: b' in p.attributes && Lookup(b') == a) ==> b in p.attributes && Lookup(b) == a
  {
    if b' :| b' in p.attributes && Lookup(b') == a then b' else a
  }

  function LinkedOnly<W>(p: Program<W>): set<Fn> {
    set f | f in p.linked && f !in p.defs
  }

  function NewNames<W>(p: Program<W>, names: set<Fn>): set<Fn> {
    set f | f in names :: NewName(NamesOf(p), f)
  }

  function NewAttributes(names: set<string>): set<string> {
    set a | a in names :: Lookup(a)
  }

  ghost function TranslatedDefs<W>(p: Program<W>): map<Fn, Stmt>
    requires WellNamed(p)
  {
    map g | g in NewNames(p, p.defs.Keys) :: SyncOfDef(p.defs[OldName(NamesOf(p), p.defs.Keys, g)])
  }

  ghost function Translate<W>(p: Program<W>): Program<W>
    requires WellNamed(p)
  {
    var k := NamesOf(p);
    Program(TranslatedDefs(p),
            map g | g in NewNames(p, LinkedOnly(p)) :: false,
            (g, args, w) => p.primitive(OldName(k, LinkedOnly(p), g), args, w),
            NewAttributes(p.attributes),
            (v, a, w) => p.attribute(v, OldAttribute(p, a), w),
            p.binary)
  }

  lemma SameNames<W>(k: Pairing<W>, f: Fn)
    requires k.rename == Lookup && k.counterpart == Counterpart
    ensures NewName(k, f) == NewName(NamesOf(k.p), f)
  {
  }

  /** A program whose functions and attributes get distinct names is translated by Translate. */
  lemma TranslateTranslates<W(!new)>(k: Pairing<W>)
    requires k.rename == Lookup && k.counterpart == Counterpart
    requires WellNamed(k.p) && NewNamesDiffer(k) && StayDistinct(Lookup, k.p.attributes)
    requires k.q == Translate(k.p)
    ensures IsTranslation(k) && LinkedAlike(k)
  {
    DefinitionsTranslated(k);
    LibrariesTranslated(k);
    AttributesTranslated(k);
  }

  lemma DefinitionsTranslated<W(!new)>(k: Pairing<W>)
    requires k.rename == Lookup && k.counterpart == Counterpart && WellNamed(k.p)
    requires k.q == Translate(k.p)
    ensures IsTranslation(k)
  {
    forall g | g in k.q.defs ensures IsTranslatedDef(k, g) {
      var f := OldName(NamesOf(k.p), k.p.defs.Keys, g);
      SameNames(k, f);
      assert f in k.p.defs && NewName(k, f) == g;
    }
    forall f | f in k.p.defs ensures NewName(k, f) in k.q.defs {
      SameNames(k, f);
    }
  }

  lemma TranslatePrimitive<W>(p: Program<W>, g: Fn, args: seq<Val>, w: W)
    requires WellNamed(p)
    ensures Translate(p).primitive(g, args, w) == p.primitive(OldName(NamesOf(p), LinkedOnly(p), g), args, w)
  {
  }

  lemma TranslateAttribute<W>(p: Program<W>, v: Val, a: string, w: W)
    requires WellNamed(p)
    ensures Translate(p).attribute(v, a, w) == p.attribute(v, OldAttribute(p, a), w)
  {
  }

  lemma LinkedTranslated<W(!new)>(k: Pairing<W>, f: Fn)
    requires k.rename == Lookup && k.counterpart == Counterpart && WellNamed(k.p) && NewNamesDiffer(k)
    requires k.q == Translate(k.p) && f in LinkedOnly(k.p)
    ensures SameFunction(k, f, NewName(k, f))
  {
    var g := NewName(k, f);
    OldNameOfLinked(k, f);
    forall args, w ensures k.q.primitive(g, args, w) == k.p.primitive(f, args, w) {
      TranslatePrimitive(k.p, g, args, w);
    }
  }

  lemma OldNameOfLinked<W>(k: Pairing<W>, f: Fn)
    requires k.rename == Lookup && k.counterpart == Counterpart && NewNamesDiffer(k) && f in LinkedOnly(k.p)
    ensures OldName(NamesOf(k.p), LinkedOnly(k.p), NewName(k, f)) == f
  {
    var f' := OldName(NamesOf(k.p), LinkedOnly(k.p), NewName(k, f));
    SameNames(k, f);
    SameNames(k, f');
    assert Known(k.p, f) && Known(k.p, f');
  }

  lemma LinkedKept<W(!new)>(k: Pairing<W>, f: Fn)
    requires k.rename == Lookup && k.counterpart == Counterpart && WellNamed(k.p) && NewNamesDiffer(k)
    requires k.q == Translate(k.p) && f in LinkedOnly(k.p)
    ensures NewName(k, f) in k.q.linked && SameFunction(k, f, NewName(k, f))
  {
    SameNames(k, f);
    LinkedTranslated(k, f);
  }

  lemma LinkedSource<W(!new)>(k: Pairing<W>, g: Fn) returns (f: Fn)
    requires k.rename == Lookup && k.counterpart == Counterpart && WellNamed(k.p)
    requires k.q == Translate(k.p) && g in k.q.linked
    ensures !k.q.linked[g] && f in LinkedOnly(k.p) && NewName(k, f) == g
  {
    f := OldName(NamesOf(k.p), LinkedOnly(k.p), g);
    SameNames(k, f);
  }

  lemma LibrariesTranslated<W(!new)>(k: Pairing<W>)
    requires k.rename == Lookup && k.counterpart == Counterpart && WellNamed(k.p) && NewNamesDiffer(k)
    requires k.q == Translate(k.p)
    ensures forall f | f in k.p.linked && f !in k.p.defs ::
      NewName(k, f) in k.q.linked && SameFunction(k, f, NewName(k, f))
    ensures forall g | g in k.q.linked :: IsCounterpartIn(k, g)
  {
    forall f | f in k.p.linked && f !in k.p.defs
      ensures NewName(k, f) in k.q.linked && SameFunction(k, f, NewName(k, f))
    {
      LinkedKept(k, f);
    }
    forall g | g in k.q.linked ensures IsCounterpartIn(k, g) {
      var f := LinkedSource(k, g);
    }
  }

  lemma OldAttributeOf(names: set<string>, a: string, b: string)
    requires StayDistinct(Lookup, names) && a in names && b in names && Lookup(b) == Lookup(a)
    ensures a == b
  {
  }

  lemma AttributeTranslated<W(!new)>(k: Pairing<W>, a: string, b: string)
    requires WellNamed(k.p) && k.q == Translate(k.p) && b == k.rename(a) && OldAttribute(k.p, b) == a
    ensures SameAttribute(k, a)
  {
    forall v, w ensures k.q.attribute(v, b, w) == k.p.attribute(v, a, w) {
      TranslateAttribute(k.p, v, b, w);
    }
  }

  lemma AttributeKept<W(!new)>(k: Pairing<W>, a: string)
    requires k.rename == Lookup && WellNamed(k.p) && StayDistinct(Lookup, k.p.attributes)
    requires k.q == Translate(k.p) && a in k.p.attributes
    ensures k.rename(a) in k.q.attributes && SameAttribute(k, a)
  {
    var b := OldAttribute(k.p, Lookup(a));
    assert b in k.p.attributes && Lookup(b) == Lookup(a);
    OldAttributeOf(k.p.attributes, a, b);
    AttributeTranslated(k, a, k.rename(a));
  }

  lemma AttributesTranslated<W(!new)>(k: Pairing<W>)
    requires k.rename == Lookup && WellNamed(k.p) && StayDistinct(Lookup, k.p.attributes)
    requires k.q == Translate(k.p)
    ensures forall a | a in k.p.attributes :: k.rename(a) in k.q.attributes && SameAttribute(k, a)
  {
    forall a | a in k.p.attributes ensures k.rename(a) in k.q.attributes && SameAttribute(k, a) {
      AttributeKept(k, a);
    }
  }

  // ----- Async and sync objects side by side -----

  /** Some method name, the same in an async and in a sync class. */
  predicate Ordinary(m: string) {
    m != "" && m[0] != '_' && m !in NAMES
  }

  const MAIN := Plain("main")

  /** async for x in store: pass; for y in cache: pass; await store.m(); cache.m() */
  function BothBody(m: string): seq<Stmt> {
    [AsyncFor("x", Name("store"), [Pass], []),
     For("y", Name("cache"), [Pass], []),
     ExprStmt(Await(Expr.Call(Attribute(Name("store"), m), []))),
     ExprStmt(Expr.Call(Attribute(Name("cache"), m), []))]
  }

  /** Objects of the class a are async, those of the class s are sync. */
  function BothLinked(a: string, s: string, m: string): map<Fn, bool> {
    map[HookOf(a, true, IterHook) := false, HookOf(a, true, NextHook) := true, Method(a, m) := true,
        HookOf(s, false, IterHook) := false, HookOf(s, false, NextHook) := false, Method(s, m) := false]
  }

  function BothKinds(a: string, s: string, m: string): Program<seq<string>> {
    Program(map[MAIN := AsyncFunctionDef("main", ["store", "cache"], [], BothBody(m))], BothLinked(a, s, m),
            Exhausted, {}, (v, b, w) => Misused, (l, op, r) => Misused)
  }

  function BothTyping(a: string, s: string): Typing {
    Typing(h => map["store" := iset{a}, "cache" := iset{s}, "x" := iset{}, "y" := iset{}],
           (f: Fn) => if f.Method? && (f.name == "__aiter__" || f.name == "__iter__") then iset{f.class_} else iset{},
           b => iset{}, op => iset{}, iset{})
  }

  lemma BothWellNamed(a: string, s: string, m: string)
    ensures WellNamed(BothKinds(a, s, m))
  {
  }

  ghost function BothPairing(a: string, s: string, m: string): Pairing<seq<string>> {
    BothWellNamed(a, s, m);
    Pairing(BothKinds(a, s, m), Translate(BothKinds(a, s, m)), BothTyping(a, s), true, Lookup, Counterpart)
  }

  /** What the program knows. */
  predicate InBoth(a: string, s: string, m: string, f: Fn) {
    || f == MAIN || f == Method(a, m) || f == Method(s, m)
    || f == HookOf(a, true, IterHook) || f == HookOf(a, true, NextHook)
    || f == HookOf(s, false, IterHook) || f == HookOf(s, false, NextHook)
  }

  lemma BothKnown(a: string, s: string, m: string, f: Fn)
    ensures Known(BothKinds(a, s, m), f) <==> InBoth(a, s, m, f)
  {
  }

  /** The names under which the translation knows it. */
  ghost predicate BothNames<W>(k: Pairing<W>, a: string, s: string, m: string) {
    && (forall f :: Known(k.p, f) <==> InBoth(a, s, m, f))
    && NewName(k, MAIN) == MAIN
    && NewName(k, Method(a, m)) == Method(a, m) && NewName(k, Method(s, m)) == Method(s, m)
    && NewName(k, HookOf(a, true, IterHook)) == HookOf(a, false, IterHook)
    && NewName(k, HookOf(a, true, NextHook)) == HookOf(a, false, NextHook)
    && NewName(k, HookOf(s, false, IterHook)) == HookOf(s, false, IterHook)
    && NewName(k, HookOf(s, false, NextHook)) == HookOf(s, false, NextHook)
  }

  lemma SyncHookNames(role: Role)
    ensures Counterpart(HookName(false, role)) == HookName(false, role) && HookName(false, role)[0] == '_'
    ensures HookName(false, IterHook) != HookName(false, NextHook)
  {
    SyncHookStays(role);
    HookStart(role);
    assert "__iter__"[2] == 'i' && "__next__"[2] == 'n';
  }

  lemma LinkedName<W>(k: Pairing<W>, f: Fn)
    requires k.counterpart == Counterpart && f !in k.p.defs
    ensures NewName(k, f) == f.(name := Counterpart(f.name))
  {
  }

  lemma MainName<W>(k: Pairing<W>)
    requires k.rename == Lookup && MAIN in k.p.defs
    ensures NewName(k, MAIN) == MAIN
  {
    PlainNamesStay("main");
  }

  lemma BothNamed<W>(k: Pairing<W>, a: string, s: string, m: string)
    requires k.rename == Lookup && k.counterpart == Counterpart && k.p.defs.Keys == {MAIN}
    requires forall f :: Known(k.p, f) <==> InBoth(a, s, m, f)
    requires Ordinary(m)
    ensures BothNames(k, a, s, m)
  {
    MainName(k);
    OrdinaryStays(m);
    LinkedName(k, Method(a, m));
    LinkedName(k, Method(s, m));
    BothHooksNamed(k, a, s, IterHook);
    BothHooksNamed(k, a, s, NextHook);
  }

  lemma OrdinaryStays(m: string)
    requires Ordinary(m)
    ensures Counterpart(m) == m && Lookup(m) == m
  {
    assert "__anext__"[0] == '_';
  }

  lemma BothHooksNamed<W>(k: Pairing<W>, a: string, s: string, role: Role)
    requires k.counterpart == Counterpart && k.p.defs.Keys == {MAIN}
    ensures NewName(k, HookOf(a, true, role)) == HookOf(a, false, role)
    ensures NewName(k, HookOf(s, false, role)) == HookOf(s, false, role)
  {
    HooksDiffer(role);
    SyncHookNames(role);
    LinkedName(k, HookOf(a, true, role));
    LinkedName(k, HookOf(s, false, role));
  }

  lemma BothDiffer<W>(k: Pairing<W>, a: string, s: string, m: string)
    requires BothNames(k, a, s, m) && a != s && Ordinary(m)
    ensures NewNamesDiffer(k)
  {
    SyncHookNames(IterHook);
    SyncHookNames(NextHook);
  }

  /** A linked function that is found under its new name and is async or sync as it must be. */
  ghost predicate Found<W>(k: Pairing<W>, isAsync: bool, f: Fn, g: Fn) {
    f in k.p.linked && f !in k.p.defs && k.p.linked[f] == isAsync && NewName(k, f) == g
  }

  lemma FoundBecomes<W>(k: Pairing<W>, isAsync: bool, f: Fn, g: Fn)
    requires NewNamesDiffer(k) && Found(k, isAsync, f, g)
    ensures Becomes(k, f, g) && Known(k.p, f) && IsAsync(k.p, f) == isAsync
  {
  }

  lemma HookFound<W>(k: Pairing<W>, isAsync: bool, c: string, role: Role)
    requires NewNamesDiffer(k)
    requires Found(k, HookIsAsync(isAsync, role), HookOf(c, isAsync, role), HookOf(c, false, role))
    ensures HooksFit(k, isAsync, iset{c}, role, [])
  {
    FoundBecomes(k, HookIsAsync(isAsync, role), HookOf(c, isAsync, role), HookOf(c, false, role));
    assert HookFits(k, isAsync, c, role, []);
  }

  /** Iterating over an object that is its own iterator, whose elements are no objects. */
  lemma IterationFits<W>(k: Pairing<W>, isAsync: bool, c: string, x: string)
    requires NewNamesDiffer(k) && x in k.t.variables(MAIN)
    requires Found(k, false, HookOf(c, isAsync, IterHook), HookOf(c, false, IterHook))
    requires Found(k, isAsync, HookOf(c, isAsync, NextHook), HookOf(c, false, NextHook))
    requires k.t.results(HookOf(c, isAsync, IterHook)) == iset{c}
    requires k.t.results(HookOf(c, isAsync, NextHook)) == iset{}
    ensures IteratesInto(k, MAIN, isAsync, iset{c}, x)
  {
    var iterators := ResultsOf(k.t, iset{c}, HookName(isAsync, IterHook));
    assert iterators == iset{c};
    assert ResultsOf(k.t, iset{c}, HookName(isAsync, NextHook)) == iset{};
    HookFound(k, isAsync, c, IterHook);
    HookFound(k, isAsync, c, NextHook);
  }

  lemma MethodFound<W>(k: Pairing<W>, isAsync: bool, c: string, o: string, m: string)
    requires NewNamesDiffer(k) && o in k.t.variables(MAIN) && k.t.variables(MAIN)[o] == iset{c}
    requires k.rename(m) == m && Found(k, isAsync, Method(c, m), Method(c, m))
    ensures CoreCallee(k, MAIN, isAsync, Attribute(Name(o), m), [])
  {
    FoundBecomes(k, isAsync, Method(c, m), Method(c, m));
    assert MethodFits(k, MAIN, isAsync, c, m, []);
  }

  lemma BothTypes(a: string, s: string)
    ensures
      var t := BothTyping(a, s);
      && t.results(HookOf(a, true, IterHook)) == iset{a} && t.results(HookOf(a, true, NextHook)) == iset{}
      && t.results(HookOf(s, false, IterHook)) == iset{s} && t.results(HookOf(s, false, NextHook)) == iset{}
  {
    assert "__anext__"[3] == 'n' && "__aiter__"[3] == 'i' && "__iter__"[3] == 't' && "__next__"[2] == 'n';
  }

  lemma BothLoops<W>(k: Pairing<W>, a: string, s: string)
    requires NewNamesDiffer(k) && k.t == BothTyping(a, s)
    requires Found(k, false, HookOf(a, true, IterHook), HookOf(a, false, IterHook))
    requires Found(k, true, HookOf(a, true, NextHook), HookOf(a, false, NextHook))
    requires Found(k, false, HookOf(s, false, IterHook), HookOf(s, false, IterHook))
    requires Found(k, false, HookOf(s, false, NextHook), HookOf(s, false, NextHook))
    ensures CoreFor(k, MAIN, true, "x", Name("store")) && CoreFor(k, MAIN, false, "y", Name("cache"))
  {
    BothTypes(a, s);
    BothVariables(a, s);
    IterationFits(k, true, a, "x");
    IterationFits(k, false, s, "y");
  }

  lemma BothVariables(a: string, s: string)
    ensures
      var variables := BothTyping(a, s).variables(MAIN);
      && variables.Keys == {"store", "cache", "x", "y"}
      && variables["store"] == iset{a} && variables["cache"] == iset{s}
  {
    assert |"store"| == 5 && |"cache"| == 5 && |"x"| == 1 && "store"[0] == 's' && "cache"[0] == 'c';
  }

  /** The four statements under the typing. */
  lemma BothStatements<W>(k: Pairing<W>, a: string, s: string, m: string)
    requires NewNamesDiffer(k) && BothNames(k, a, s, m) && k.t == BothTyping(a, s) && k.rename(m) == m
    requires k.p.linked == BothLinked(a, s, m) && k.p.defs.Keys == {MAIN} && a != s && Ordinary(m)
    ensures CoreBlock(k, MAIN, BothBody(m))
  {
    BothFound(k, a, s, m);
    BothLoops(k, a, s);
    BothVariables(a, s);
    MethodFound(k, true, a, "store", m);
    MethodFound(k, false, s, "cache", m);
    BothBlock(k, m);
  }

  lemma BothBlock<W>(k: Pairing<W>, m: string)
    requires CoreFor(k, MAIN, true, "x", Name("store")) && CoreFor(k, MAIN, false, "y", Name("cache"))
    requires CoreCallee(k, MAIN, true, Attribute(Name("store"), m), [])
    requires CoreCallee(k, MAIN, false, Attribute(Name("cache"), m), [])
    ensures CoreBlock(k, MAIN, BothBody(m))
  {
    var b := BothBody(m);
    assert CoreBlock(k, MAIN, [Pass]) by {
      assert [Pass][1..] == [];
    }
    assert CoreStmt(k, MAIN, b[0]) && CoreStmt(k, MAIN, b[1]);
    assert CoreExprs(k, MAIN, []);
    assert CoreExpr(k, MAIN, b[2].value) && CoreExpr(k, MAIN, b[3].value);
    assert b[1..][1..] == b[2..] && b[2..][1..] == b[3..] && b[3..][1..] == [];
    assert CoreBlock(k, MAIN, b[3..]);
    assert CoreBlock(k, MAIN, b[2..]);
    assert CoreBlock(k, MAIN, b[1..]);
  }

  lemma BothFound<W>(k: Pairing<W>, a: string, s: string, m: string)
    requires BothNames(k, a, s, m) && k.p.linked == BothLinked(a, s, m) && k.p.defs.Keys == {MAIN}
    requires a != s && Ordinary(m)
    ensures Found(k, false, HookOf(a, true, IterHook), HookOf(a, false, IterHook))
    ensures Found(k, true, HookOf(a, true, NextHook), HookOf(a, false, NextHook))
    ensures Found(k, false, HookOf(s, false, IterHook), HookOf(s, false, IterHook))
    ensures Found(k, false, HookOf(s, false, NextHook), HookOf(s, false, NextHook))
    ensures Found(k, true, Method(a, m), Method(a, m)) && Found(k, false, Method(s, m), Method(s, m))
  {
    BothKindsOf(a, s, m);
  }

  lemma BothKindsOf(a: string, s: string, m: string)
    requires a != s && Ordinary(m)
    ensures
      var linked := BothLinked(a, s, m);
      && HookOf(a, true, IterHook) in linked && !linked[HookOf(a, true, IterHook)]
      && HookOf(a, true, NextHook) in linked && linked[HookOf(a, true, NextHook)]
      && HookOf(s, false, IterHook) in linked && !linked[HookOf(s, false, IterHook)]
      && HookOf(s, false, NextHook) in linked && !linked[HookOf(s, false, NextHook)]
      && Method(a, m) in linked && linked[Method(a, m)] && Method(s, m) in linked && !linked[Method(s, m)]
  {
    HooksAreNotOrdinary(m);
    SixKeys(HookOf(a, true, IterHook), HookOf(a, true, NextHook), Method(a, m),
            HookOf(s, false, IterHook), HookOf(s, false, NextHook), Method(s, m));
  }

  lemma HooksAreNotOrdinary(m: string)
    requires Ordinary(m)
    ensures HookName(true, IterHook) != m && HookName(true, NextHook) != m
    ensures HookName(false, IterHook) != m && HookName(false, NextHook) != m
    ensures HookName(true, IterHook) != HookName(true, NextHook) && HookName(false, IterHook) != HookName(false, NextHook)
  {
    assert "__aiter__"[0] == '_' && "__anext__"[0] == '_' && "__iter__"[0] == '_' && "__next__"[0] == '_';
    assert "__aiter__"[3] == 'i' && "__anext__"[3] == 'n' && "__iter__"[2] == 'i' && "__next__"[2] == 'n';
  }

  lemma SixKeys(f1: Fn, f2: Fn, f3: Fn, f4: Fn, f5: Fn, f6: Fn)
    requires f1 !in {f2, f3, f4, f5, f6} && f2 !in {f3, f4, f5, f6} && f3 !in {f4, f5, f6} && f4 !in {f5, f6} && f5 != f6
    ensures
      var linked := map[f1 := false, f2 := true, f3 := true, f4 := false, f5 := false, f6 := false];
      && f1 in linked && f2 in linked && f3 in linked && f4 in linked && f5 in linked && f6 in linked
      && !linked[f1] && linked[f2] && linked[f3] && !linked[f4] && !linked[f5] && !linked[f6]
  {
  }

  lemma BothLibraryTyped(k: Pairing<seq<string>>, a: string, s: string, m: string)
    requires k.p == BothKinds(a, s, m) && k.t == BothTyping(a, s)
    ensures LibrariesTyped(k)
  {
  }

  lemma FixedStayDistinct(rename: Renaming, names: set<string>)
    requires forall x | x in names :: rename(x) == x
    ensures StayDistinct(rename, names)
  {
  }

  lemma BothDefinition<W>(k: Pairing<W>, a: string, s: string, m: string)
    requires forall x | x in {"store", "cache", "x", "y"} :: k.rename(x) == x
    requires k.p.defs == map[MAIN := AsyncFunctionDef("main", ["store", "cache"], [], BothBody(m))]
    requires k.t == BothTyping(a, s) && CoreBlock(k, MAIN, BothBody(m))
    ensures CoreDef(k, MAIN)
  {
    BothVariables(a, s);
    FixedStayDistinct(k.rename, k.t.variables(MAIN).Keys);
  }

  lemma BothVariablesStay()
    ensures forall x | x in {"store", "cache", "x", "y"} :: Lookup(x) == x
  {
    PlainNamesStay("store");
    PlainNamesStay("cache");
    PlainNamesStay("x");
    PlainNamesStay("y");
  }

  lemma BothCore<W>(k: Pairing<W>, a: string, s: string, m: string)
    requires a != s && Ordinary(m) && k.rename == Lookup
    requires k.p.defs == map[MAIN := AsyncFunctionDef("main", ["store", "cache"], [], BothBody(m))]
    requires k.p.linked == BothLinked(a, s, m)
    requires k.t == BothTyping(a, s) && BothNames(k, a, s, m) && NewNamesDiffer(k)
    ensures CoreDef(k, MAIN)
  {
    OrdinaryStays(m);
    BothVariablesStay();
    BothStatements(k, a, s, m);
    BothDefinition(k, a, s, m);
  }

  lemma BothNamesDiffer<W>(k: Pairing<W>, a: string, s: string, m: string)
    requires k.rename == Lookup && k.counterpart == Counterpart && a != s && Ordinary(m)
    requires k.p.defs.Keys == {MAIN} && forall f :: Known(k.p, f) <==> InBoth(a, s, m, f)
    ensures BothNames(k, a, s, m) && NewNamesDiffer(k)
  {
    BothNamed(k, a, s, m);
    BothDiffer(k, a, s, m);
  }

  /** For any two classes, one async and one sync, and any method name of both, all conditions of
      AsyncTranslation are met by the program above and its translation, with no exception. */
  lemma BothKindsTogether(a: string, s: string, m: string)
    requires a != s && Ordinary(m)
    ensures
      var k := BothPairing(a, s, m);
      k.strict && IsTranslation(k) && CoreProgram(k)
  {
    BothWellNamed(a, s, m);
    BothMeets(BothPairing(a, s, m), a, s, m);
  }

  lemma BothConditions(k: Pairing<seq<string>>, a: string, s: string, m: string)
    requires a != s && Ordinary(m) && k.rename == Lookup && k.counterpart == Counterpart
    requires k.p == BothKinds(a, s, m) && k.t == BothTyping(a, s)
    ensures LibrariesTyped(k) && CoreDef(k, MAIN) && NewNamesDiffer(k)
    ensures k.p.defs.Keys == {MAIN} && StayDistinct(Lookup, k.p.attributes)
  {
    forall f ensures Known(k.p, f) <==> InBoth(a, s, m, f) {
      BothKnown(a, s, m, f);
    }
    BothNamesDiffer(k, a, s, m);
    BothCore(k, a, s, m);
    BothLibraryTyped(k, a, s, m);
    FixedStayDistinct(Lookup, k.p.attributes);
  }

  lemma OneDefinitionMeets<W(!new)>(k: Pairing<W>)
    requires LinkedAlike(k) && LibrariesTyped(k) && k.p.defs.Keys == {MAIN} && CoreDef(k, MAIN)
    ensures CoreProgram(k)
  {
  }

  lemma TranslatedMeets<W(!new)>(k: Pairing<W>)
    requires k.rename == Lookup && k.counterpart == Counterpart && WellNamed(k.p) && k.q == Translate(k.p)
    requires NewNamesDiffer(k) && StayDistinct(Lookup, k.p.attributes)
    requires LibrariesTyped(k) && k.p.defs.Keys == {MAIN} && CoreDef(k, MAIN)
    ensures IsTranslation(k) && CoreProgram(k)
  {
    TranslateTranslates(k);
    OneDefinitionMeets(k);
  }

  lemma BothMeets(k: Pairing<seq<string>>, a: string, s: string, m: string)
    requires a != s && Ordinary(m) && k.rename == Lookup && k.counterpart == Counterpart
    requires k.p == BothKinds(a, s, m) && k.t == BothTyping(a, s) && WellNamed(k.p) && k.q == Translate(k.p)
    ensures IsTranslation(k) && CoreProgram(k)
  {
    BothConditions(k, a, s, m);
    TranslatedMeets(k);
  }

  lemma MainBecomesMain(k: Pairing<seq<string>>, a: string, s: string, m: string)
    requires a != s && Ordinary(m) && k.rename == Lookup && k.counterpart == Counterpart && k.p == BothKinds(a, s, m)
    ensures Becomes(k, MAIN, MAIN) && NewName(k, MAIN) == MAIN
  {
    forall f ensures Known(k.p, f) <==> InBoth(a, s, m, f) {
      BothKnown(a, s, m, f);
    }
    BothNamesDiffer(k, a, s, m);
  }

  lemma BothAccepted(k: Pairing<seq<string>>, a: string, s: string, m: string, i: int, j: int)
    requires k.p == BothKinds(a, s, m) && k.t == BothTyping(a, s)
    ensures AcceptsAll(k, MAIN, [Object(a, i), Object(s, j)])
  {
    BothVariables(a, s);
  }

  /** So it runs as its translation does, whatever the objects are. */
  lemma BothKindsRunAlike(a: string, s: string, m: string, i: int, j: int, w: seq<string>, fuel: nat)
    requires a != s && Ordinary(m)
    ensures
      var k := BothPairing(a, s, m);
      var args := [Object(a, i), Object(s, j)];
      Invoke(k.q, MAIN, args, w, fuel) == Invoke(k.p, MAIN, args, w, fuel)
  {
    var k := BothPairing(a, s, m);
    BothKindsTogether(a, s, m);
    MainBecomesMain(k, a, s, m);
    BothAccepted(k, a, s, m, i, j);
    TranslationPreservesRuns(k, MAIN, [Object(a, i), Object(s, j)], w, fuel);
  }
}
