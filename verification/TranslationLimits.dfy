/** Where the conditions of AsyncTranslation come from: programs that change their meaning, what
    guards do, and a program with both kinds of loops and methods that meets all conditions. */
module TranslationLimits {
  import opened PythonAst
  import opened AsyncToSync
  import opened AsyncSemantics
  import opened RenameAsyncToSync
  import opened RenameStatements
  import opened SyncPipeline
  import opened CoreLanguage
  import opened AsyncTranslation
  import opened HookNames

  // ----- Guards -----

  predicate HasIsAsync<W>(p: Program<W>) {
    Plain("is_async") !in p.defs && Plain("is_async") in p.linked && !p.linked[Plain("is_async")]
  }

  /** Evaluating `is_async()` in a program that is linked with a function of that name. */
  lemma IsAsyncAnswers<W>(p: Program<W>, answer: bool, env: Env, w: W, fuel: nat)
    requires HasIsAsync(p) && fuel > 0
    requires p.primitive(Plain("is_async"), [], w) == (Got(BoolVal(answer)), w)
    ensures EvalExpr(p, Expr.Call(Name("is_async"), []), env, w, fuel) == (Got(BoolVal(answer)), w)
  {
    assert EvalTarget(p, Name("is_async"), env, w, fuel) == (Got(Target(Plain("is_async"), [])), w);
    var none: seq<Val> := [];
    assert EvalExprs(p, [], env, w, fuel) == (Got(none), w) && none + none == none;
    assert RunNow(p, Plain("is_async"), none, w, fuel) == (Got(BoolVal(answer)), w);
  }

  /** Of a guard the translator drops the branch that the async program runs, where
      is_async() answers True. */
  lemma GuardDropsWhatAsyncRuns<W>(p: Program<W>, s: Stmt, env: Env, w: W, fuel: nat)
    requires IsGuard(s) && (s.test.Call? ==> s.test.args == []) && fuel > 0
    requires HasIsAsync(p) && p.primitive(Plain("is_async"), [], w) == (Got(BoolVal(true)), w)
    ensures ExecStmt(p, s, env, w, fuel) == ExecBlock(p, DroppedBranch(s), env, w, fuel)
  {
    if IsAsyncCall(s.test) {
      IsAsyncAnswers(p, true, env, w, fuel);
    }
  }

  /** Of an is_async() guard it keeps the branch that a sync program runs, where is_async()
      answers False. */
  lemma GuardKeepsWhatSyncRuns<W>(p: Program<W>, s: Stmt, env: Env, w: W, fuel: nat)
    requires IsGuard(s) && s.test == Expr.Call(Name("is_async"), []) && fuel > 0
    requires HasIsAsync(p) && p.primitive(Plain("is_async"), [], w) == (Got(BoolVal(false)), w)
    ensures ExecStmt(p, s, env, w, fuel) == ExecBlock(p, KeptBranch(s), env, w, fuel)
  {
    IsAsyncAnswers(p, false, env, w, fuel);
  }

  // ----- Pairs of programs -----

  function AnyTyping(): Typing {
    Typing(h => map[], f => iset{}, a => iset{}, op => iset{}, iset{})
  }

  /** A program and its translation. */
  function PairOf<W>(p: Program<W>, q: Program<W>): Pairing<W> {
    Pairing(p, q, AnyTyping(), false, Lookup, Counterpart)
  }

  lemma PairIsNamed<W>(p: Program<W>, q: Program<W>)
    ensures IsLookup(PairOf(p, q).rename) && IsCounterpart(PairOf(p, q).counterpart)
  {
  }

  /** The translation of a program in which every function keeps its name. */
  function Translated<W>(p: Program<W>): Program<W> {
    Program(map f | f in p.defs && IsDefinition(p.defs[f]) :: SyncOfDef(p.defs[f]), map f | f in p.linked :: false,
            p.primitive, p.attributes, p.attribute, p.binary)
  }

  ghost predicate IsTranslatedTo<W(!new)>(p: Program<W>, q: Program<W>) {
    IsTranslation(PairOf(p, q)) && LinkedAlike(PairOf(p, q))
  }

  ghost predicate KeepsNames<W>(p: Program<W>) {
    && (forall f | f in p.defs ::
      IsDefinition(p.defs[f]) && p.defs[f].name == f.name && (p.defs[f].AsyncFunctionDef? ==> Lookup(f.name) == f.name))
    && (forall f | f in p.linked :: f !in p.defs && Counterpart(f.name) == f.name)
    && p.attributes == {}
  }

  lemma NamesStay<W(!new)>(p: Program<W>)
    requires KeepsNames(p)
    ensures IsTranslatedTo(p, Translated(p))
  {
    var k := PairOf(p, Translated(p));
    PairIsNamed(p, Translated(p));
    forall f | f in p.defs || f in p.linked ensures NewName(k, f) == f {
      assert f in p.defs ==> k.rename(f.name) == Lookup(f.name);
      assert f in p.linked ==> k.counterpart(f.name) == Counterpart(f.name);
    }
    forall f | f in p.linked ensures SameFunction(k, f, f) {
    }
  }

  lemma ShapeOfPlainName(x: string)
    requires PlainName(x)
    ensures SyncOf(Name(x)) == Name(x)
  {
    PlainNamesStay(x);
    ShapeOfName(Lookup, x);
  }

  lemma ShapeOfPlainCall(f: string)
    requires PlainName(f)
    ensures SyncOf(Expr.Call(Name(f), [])) == Expr.Call(Name(f), [])
  {
    ShapeOfPlainName(f);
    ShapeOfCall(Name(f), []);
    assert SyncOfEach([]) == [];
  }

  lemma ShapeOfSimple(s: Stmt)
    ensures s.ExprStmt? ==> SyncOfStmt(s) == [ExprStmt(SyncOf(s.value))]
    ensures s.Assign? ==> SyncOfStmt(s) == [Assign(Lookup(s.target), SyncOf(s.value))]
    ensures s.Return? ==> SyncOfStmt(s) == [Return(SyncOf(s.value))]
  {
    var r := RenameStmt(s);
    if s.ExprStmt? || s.Assign? || s.Return? {
      assert VisitStmt(r) == [InPlaceStmt(r)];
    }
  }

  lemma ShapeOfLoop(x: string, i: Expr, b: seq<Stmt>)
    ensures SyncOfStmt(AsyncFor(x, i, b, [])) == [For(Lookup(x), SyncOf(i), SyncOfBlock(b), [])]
    ensures SyncOfStmt(For(x, i, b, [])) == [For(Lookup(x), SyncOf(i), SyncOfBlock(b), [])]
  {
    assert RenameBlock([]) == [] && VisitBlock([]) == [];
    var r := RenameStmt(For(x, i, b, []));
    assert VisitStmt(r) == [InPlaceStmt(r)];
  }

  lemma ShapeOfBlock(b: seq<Stmt>)
    requires b != []
    ensures SyncOfBlock(b) == SyncOfStmt(b[0]) + SyncOfBlock(b[1..])
  {
    assert RenameBlock(b)[1..] == RenameBlock(b[1..]);
  }

  lemma ShapeOfOne(s: Stmt)
    ensures SyncOfBlock([s]) == SyncOfStmt(s)
  {
    ShapeOfBlock([s]);
    assert [s][1..] == [] && SyncOfBlock([]) == [];
  }

  /** A body without a docstring. */
  lemma ShapeOfBody(d: Stmt)
    requires IsDefinition(d) && d.body != [] && !d.body[0].ExprStmt?
    ensures SyncOfDef(d).FunctionDef? && SyncOfDef(d).body == SyncOfBlock(d.body)
  {
    ShapeOfDef(d);
    assert RenameBlock(d.body)[0] == RenameStmt(d.body[0]);
  }

  // ----- Calls must be awaited where they stand -----

  /** Libraries that only record which of their functions ran. */
  function Record(f: Fn, args: seq<Val>, w: seq<string>): (Outcome<Val>, seq<string>) {
    (Got(NoneVal), w + [f.name])
  }

  const LATE_BODY: seq<Stmt> := [
    Assign("pending", Expr.Call(Name("push"), [])),
    ExprStmt(Expr.Call(Name("load"), [])),
    ExprStmt(Await(Name("pending")))]

  /** pending = push(); load(); await pending -- with an async push and a sync load. */
  function LateAwait(): Program<seq<string>> {
    Program(map[Plain("main") := AsyncFunctionDef("main", [], [], LATE_BODY)],
            map[Plain("push") := true, Plain("load") := false],
            Record, {}, (v, a, w) => Misused, (a, op, b) => Misused)
  }

  lemma LateAwaitKeepsNames()
    ensures KeepsNames(LateAwait())
  {
    PlainNamesStay("main");
    PlainNamesStay("push");
    PlainNamesStay("load");
  }

  lemma RecordedCall(p: Program<seq<string>>, f: string, env: Env, w: seq<string>)
    requires Plain(f) !in p.defs && Plain(f) in p.linked && p.primitive == Record
    ensures EvalExpr(p, Expr.Call(Name(f), []), env, w, 2) ==
      if p.linked[Plain(f)] then (Got(Coroutine(Plain(f), [])), w) else (Got(NoneVal), w + [f])
  {
    var none: seq<Val> := [];
    assert EvalTarget(p, Name(f), env, w, 2) == (Got(Target(Plain(f), [])), w);
    assert EvalExprs(p, [], env, w, 2) == (Got(none), w) && none + none == none;
    assert RunNow(p, Plain(f), none, w, 2) == (Got(NoneVal), w + [f]);
  }

  lemma ThreeStatements<W>(
      p: Program<W>, b: seq<Stmt>, env0: Env, w0: W, env1: Env, w1: W, env2: Env, w2: W, env3: Env, w3: W, fuel: nat)
    requires |b| == 3
    requires ExecStmt(p, b[0], env0, w0, fuel) == (Flow.Next, env1, w1)
    requires ExecStmt(p, b[1], env1, w1, fuel) == (Flow.Next, env2, w2)
    requires ExecStmt(p, b[2], env2, w2, fuel) == (Flow.Next, env3, w3)
    ensures ExecBlock(p, b, env0, w0, fuel) == (Flow.Next, env3, w3)
  {
    assert b[1..][0] == b[1] && b[1..][1..] == b[2..];
    assert b[2..][0] == b[2] && b[2..][1..] == b[3..];
    assert ExecBlock(p, b[3..], env3, w3, fuel) == (Flow.Next, env3, w3);
    assert ExecBlock(p, b[2..], env2, w2, fuel) == (Flow.Next, env3, w3);
    assert ExecBlock(p, b[1..], env1, w1, fuel) == (Flow.Next, env3, w3);
  }

  lemma LateAwaitOriginal()
    ensures Invoke(LateAwait(), Plain("main"), [], [], 2) == (Got(NoneVal), ["load", "push"])
  {
    var p := LateAwait();
    var start: seq<string> := [];
    var env1: Env := map["pending" := Coroutine(Plain("push"), [])];
    assert start + ["load"] == ["load"] && ["load"] + ["push"] == ["load", "push"];
    RecordedCall(p, "push", map[], start);
    assert ExecStmt(p, LATE_BODY[0], map[], start, 2) == (Flow.Next, env1, start);
    RecordedCall(p, "load", env1, start);
    assert ExecStmt(p, LATE_BODY[1], env1, start, 2) == (Flow.Next, env1, ["load"]);
    assert EvalExpr(p, Name("pending"), env1, ["load"], 2) == (Got(Coroutine(Plain("push"), [])), ["load"]);
    assert RunNow(p, Plain("push"), [], ["load"], 2) == (Got(NoneVal), ["load", "push"]);
    assert ExecStmt(p, LATE_BODY[2], env1, ["load"], 2) == (Flow.Next, env1, ["load", "push"]);
    ThreeStatements(p, LATE_BODY, map[], start, env1, start, env1, ["load"], env1, ["load", "push"], 2);
  }

  lemma LateAwaitBody()
    ensures
      var d := SyncOfDef(AsyncFunctionDef("main", [], [], LATE_BODY));
      && d.FunctionDef? && d.params == []
      && d.body == [
        Assign("pending", Expr.Call(Name("push"), [])),
        ExprStmt(Expr.Call(Name("load"), [])),
        ExprStmt(Name("pending"))]
  {
    var d := AsyncFunctionDef("main", [], [], LATE_BODY);
    ShapeOfBody(d);
    ShapeOfDef(d);
    LateAwaitStatements();
    ShapeOfBlock(LATE_BODY);
    ShapeOfBlock(LATE_BODY[1..]);
    ShapeOfOne(LATE_BODY[2]);
    assert LATE_BODY[1..][1..] == [LATE_BODY[2]];
  }

  lemma LateAwaitStatements()
    ensures SyncOfStmt(LATE_BODY[0]) == [Assign("pending", Expr.Call(Name("push"), []))]
    ensures SyncOfStmt(LATE_BODY[1]) == [ExprStmt(Expr.Call(Name("load"), []))]
    ensures SyncOfStmt(LATE_BODY[2]) == [ExprStmt(Name("pending"))]
  {
    PlainNamesStay("pending");
    ShapeOfPlainName("pending");
    ShapeOfPlainCall("push");
    ShapeOfPlainCall("load");
    ShapeOfSimple(LATE_BODY[0]);
    ShapeOfSimple(LATE_BODY[1]);
    ShapeOfSimple(LATE_BODY[2]);
    ShapeOfAwait("pending");
  }

  lemma ShapeOfAwait(x: string)
    ensures SyncOf(Await(Name(x))) == SyncOf(Name(x))
  {
    assert Rename(Await(Name(x))) == Await(Rename(Name(x)));
  }

  /** push(); load(); -- with a sync push. */
  lemma LateAwaitRun(p: Program<seq<string>>, b: seq<Stmt>)
    requires b == [
      Assign("pending", Expr.Call(Name("push"), [])),
      ExprStmt(Expr.Call(Name("load"), [])),
      ExprStmt(Name("pending"))]
    requires p.primitive == Record
    requires forall f | f == "push" || f == "load" :: Plain(f) !in p.defs && Plain(f) in p.linked && !p.linked[Plain(f)]
    ensures ExecBlock(p, b, map[], [], 2) == (Flow.Next, map["pending" := NoneVal], ["push", "load"])
  {
    var start: seq<string> := [];
    var env1: Env := map["pending" := NoneVal];
    assert start + ["push"] == ["push"] && ["push"] + ["load"] == ["push", "load"];
    RecordedCall(p, "push", map[], start);
    assert ExecStmt(p, b[0], map[], start, 2) == (Flow.Next, env1, ["push"]);
    RecordedCall(p, "load", env1, ["push"]);
    assert ExecStmt(p, b[1], env1, ["push"], 2) == (Flow.Next, env1, ["push", "load"]);
    assert EvalExpr(p, Name("pending"), env1, ["push", "load"], 2) == (Got(NoneVal), ["push", "load"]);
    assert ExecStmt(p, b[2], env1, ["push", "load"], 2) == (Flow.Next, env1, ["push", "load"]);
    ThreeStatements(p, b, map[], start, env1, ["push"], env1, ["push", "load"], env1, ["push", "load"], 2);
  }

  lemma LateAwaitTranslated()
    ensures Invoke(Translated(LateAwait()), Plain("main"), [], [], 2) == (Got(NoneVal), ["push", "load"])
  {
    LateAwaitBody();
    LateAwaitRun(Translated(LateAwait()), SyncOfDef(AsyncFunctionDef("main", [], [], LATE_BODY)).body);
  }

  /** A coroutine awaited later than it is made runs in another order once translated. */
  lemma LateAwaitIsReordered()
    ensures IsTranslatedTo(LateAwait(), Translated(LateAwait()))
    ensures Invoke(LateAwait(), Plain("main"), [], [], 2) == (Got(NoneVal), ["load", "push"])
    ensures Invoke(Translated(LateAwait()), Plain("main"), [], [], 2) == (Got(NoneVal), ["push", "load"])
  {
    LateAwaitKeepsNames();
    NamesStay(LateAwait());
    LateAwaitOriginal();
    LateAwaitTranslated();
  }

  // ----- Statements must be of their hooks' kind -----

  /** Libraries whose iterables are their own iterators, without any elements. */
  function Exhausted(f: Fn, args: seq<Val>, w: seq<string>): (Outcome<Val>, seq<string>) {
    (Got(if (f.name == "__aiter__" || f.name == "__iter__") && args != [] then args[0] else StopIteration), w)
  }

  const LOOP: seq<Stmt> := [AsyncFor("x", Name("it"), [Return(Name("x"))], [])]

  /** async for x in it: return x */
  function LoopMain(): Stmt {
    AsyncFunctionDef("main", ["it"], [], LOOP)
  }

  /** It runs over an iterable of a library that is sync. */
  function MixedKinds(): Program<seq<string>> {
    Program(map[Plain("main") := LoopMain()],
            map[HookOf("C", false, IterHook) := false, HookOf("C", false, NextHook) := false],
            Exhausted, {}, (v, a, w) => Misused, (a, op, b) => Misused)
  }

  lemma MixedKindsKeepsNames()
    ensures KeepsNames(MixedKinds())
  {
    PlainNamesStay("main");
    SyncHookStays(IterHook);
    SyncHookStays(NextHook);
  }

  lemma SyncHookStays(role: Role)
    ensures Counterpart(HookName(false, role)) == HookName(false, role)
  {
    HookStart(role);
    assert HookName(false, role)[2] != 'a';
    UnderscoreNames(HookName(false, role));
  }

  lemma LoopTranslated()
    ensures
      var d := SyncOfDef(LoopMain());
      d.FunctionDef? && d.params == ["it"] && d.body == [For("x", Name("it"), [Return(Name("x"))], [])]
  {
    ShapeOfDef(LoopMain());
    ShapeOfBody(LoopMain());
    PlainNamesStay("x");
    PlainNamesStay("it");
    assert LookupEach(["it"]) == ["it"];
    ShapeOfPlainName("x");
    ShapeOfPlainName("it");
    ShapeOfSimple(Return(Name("x")));
    ShapeOfOne(Return(Name("x")));
    ShapeOfLoop("x", Name("it"), [Return(Name("x"))]);
    ShapeOfOne(LOOP[0]);
  }

  lemma BoundOne(x: string, v: Val)
    ensures Bind([x], [v]) == map[x := v]
  {
    assert [x][..0] == [] && [v][..0] == [];
  }

  lemma OneStatement<W>(p: Program<W>, s: Stmt, env: Env, w: W, fuel: nat)
    ensures ExecBlock(p, [s], env, w, fuel) == ExecStmt(p, s, env, w, fuel)
  {
    assert [s][1..] == [];
  }

  /** A function of one parameter whose body is one statement. */
  lemma OneLine<W>(p: Program<W>, f: Fn, x: string, s: Stmt, v: Val, w: W, fuel: nat)
    requires f in p.defs && IsDefinition(p.defs[f]) && p.defs[f].params == [x] && p.defs[f].body == [s]
    ensures
      var (flow, _, w1) := ExecStmt(p, s, map[x := v], w, fuel);
      Invoke(p, f, [v], w, fuel) == (AsResult(flow), w1)
  {
    BoundOne(x, v);
    OneStatement(p, s, map[x := v], w, fuel);
  }

  /** A loop over the object in `it`. */
  lemma LoopOver<W>(p: Program<W>, isAsync: bool, b: seq<Stmt>, o: Val, w: W, fuel: nat)
    requires fuel > 0
    ensures ExecStmt(p, if isAsync then AsyncFor("x", Name("it"), b, []) else For("x", Name("it"), b, []),
                     map["it" := o], w, fuel)
         == IterateOver(p, isAsync, "x", o, b, [], map["it" := o], w, fuel - 1)
  {
    assert EvalExpr(p, Name("it"), map["it" := o], w, fuel) == (Got(o), w);
  }

  /** Running such a loop as the body of main. */
  lemma MainLoops<W>(p: Program<W>, isAsync: bool, b: seq<Stmt>, o: Val, w: W)
    requires Plain("main") in p.defs && IsDefinition(p.defs[Plain("main")])
    requires p.defs[Plain("main")].params == ["it"]
    requires p.defs[Plain("main")].body
      == [if isAsync then AsyncFor("x", Name("it"), b, []) else For("x", Name("it"), b, [])]
    ensures
      var (flow, _, w1) := IterateOver(p, isAsync, "x", o, b, [], map["it" := o], w, 1);
      Invoke(p, Plain("main"), [o], w, 2) == (AsResult(flow), w1)
  {
    OneLine(p, Plain("main"), "it", p.defs[Plain("main")].body[0], o, w, 2);
    LoopOver(p, isAsync, b, o, w, 2);
  }

  lemma MixedKindsOriginal(o: Val)
    requires o == Object("C", 0)
    ensures Invoke(MixedKinds(), Plain("main"), [o], [], 2) == (Misused, [])
  {
    var p := MixedKinds();
    MainLoops(p, true, LOOP[0].body, o, []);
    assert !HasHook(p, true, o, IterHook) by {
      HooksDiffer(IterHook);
      assert HookName(true, IterHook) != HookName(false, NextHook);
    }
  }

  lemma MixedKindsTranslated(o: Val)
    requires o == Object("C", 0)
    ensures Invoke(Translated(MixedKinds()), Plain("main"), [o], [], 2) == (Got(NoneVal), [])
  {
    HookOfC();
    NothingInIt(Translated(MixedKinds()), o);
  }

  lemma HookOfC()
    ensures HookOf("C", false, IterHook) != Plain("main") && HookOf("C", false, NextHook) != Plain("main")
  {
  }

  /** A sync loop over an iterable without elements. */
  lemma NothingInIt(p: Program<seq<string>>, o: Val)
    requires Plain("main") in p.defs && p.defs[Plain("main")] == SyncOfDef(LoopMain())
    requires o == Object("C", 0) && p.primitive == Exhausted
    requires forall role | role == IterHook || role == NextHook ::
      var f := HookOf("C", false, role);
      f !in p.defs && f in p.linked && !p.linked[f]
    ensures Invoke(p, Plain("main"), [o], [], 2) == (Got(NoneVal), [])
  {
    LoopTranslated();
    MainLoops(p, false, LOOP[0].body, o, []);
    assert CallHook(p, false, o, IterHook, [o], [], 1) == (Got(o), []);
    assert "__next__"[2] == 'n';
    assert CallHook(p, false, o, NextHook, [o], [], 1) == (Got(StopIteration), []);
  }

  /** An async statement over a sync object stops on a TypeError, and runs once translated. */
  lemma MixedKindsRunOn()
    ensures IsTranslatedTo(MixedKinds(), Translated(MixedKinds()))
    ensures Invoke(MixedKinds(), Plain("main"), [Object("C", 0)], [], 2) == (Misused, [])
    ensures Invoke(Translated(MixedKinds()), Plain("main"), [Object("C", 0)], [], 2) == (Got(NoneVal), [])
  {
    MixedKindsKeepsNames();
    NamesStay(MixedKinds());
    MixedKindsOriginal(Object("C", 0));
    MixedKindsTranslated(Object("C", 0));
  }

  // ----- Async iterators must not be the program's own -----

  /** def __aiter__(self): return self */
  function OwnIter(): Stmt {
    FunctionDef("__aiter__", ["self"], [], [Return(Name("self"))])
  }

  /** async def __anext__(self): return 1 */
  function OwnNext(): Stmt {
    AsyncFunctionDef("__anext__", ["self"], [], [Return(Constant(IntLit(1)))])
  }

  /** The same loop over an object of a class of the program. */
  function OwnIterator(): Program<seq<string>> {
    Program(map[Plain("main") := LoopMain(),
                HookOf("C", true, IterHook) := OwnIter(), HookOf("C", true, NextHook) := OwnNext()],
            map[], Exhausted, {}, (v, a, w) => Misused, (a, op, b) => Misused)
  }

  lemma OwnIteratorKeepsNames()
    ensures KeepsNames(OwnIterator())
  {
    PlainNamesStay("main");
    HooksDiffer(NextHook);
  }

  lemma OwnIteratorOriginal(o: Val)
    requires o == Object("C", 0)
    ensures Invoke(OwnIterator(), Plain("main"), [o], [], 2) == (Got(IntVal(1)), [])
  {
    var p := OwnIterator();
    MainLoops(p, true, LOOP[0].body, o, []);
    OneLine(p, HookOf("C", true, IterHook), "self", Return(Name("self")), o, [], 1);
    OneLine(p, HookOf("C", true, NextHook), "self", Return(Constant(IntLit(1))), o, [], 1);
    assert CallHook(p, true, o, IterHook, [o], [], 1) == (Got(o), []);
    assert CallHook(p, true, o, NextHook, [o], [], 1) == (Got(IntVal(1)), []);
    OneStatement(p, Return(Name("x")), map["it" := o]["x" := IntVal(1)], [], 1);
  }

  lemma OwnIteratorTranslated(o: Val)
    requires o == Object("C", 0)
    ensures Invoke(Translated(OwnIterator()), Plain("main"), [o], [], 2) == (Misused, [])
  {
    NoSyncHook();
    NothingToIterate(Translated(OwnIterator()), o);
  }

  lemma NoSyncHook()
    ensures !Known(Translated(OwnIterator()), HookOf("C", false, IterHook))
  {
    HooksDiffer(IterHook);
    assert HookName(false, IterHook) != HookName(true, NextHook);
  }

  lemma NothingToIterate(p: Program<seq<string>>, o: Val)
    requires Plain("main") in p.defs && p.defs[Plain("main")] == SyncOfDef(LoopMain())
    requires o == Object("C", 0) && !Known(p, HookOf("C", false, IterHook))
    ensures Invoke(p, Plain("main"), [o], [], 2) == (Misused, [])
  {
    LoopTranslated();
    MainLoops(p, false, LOOP[0].body, o, []);
  }

  /** A program that iterates over an async iterator of its own returns 1, and stops on a TypeError
      once translated. */
  lemma OwnIteratorIsLost()
    ensures IsTranslatedTo(OwnIterator(), Translated(OwnIterator()))
    ensures Invoke(OwnIterator(), Plain("main"), [Object("C", 0)], [], 2) == (Got(IntVal(1)), [])
    ensures Invoke(Translated(OwnIterator()), Plain("main"), [Object("C", 0)], [], 2) == (Misused, [])
  {
    OwnIteratorKeepsNames();
    NamesStay(OwnIterator());
    OwnIteratorOriginal(Object("C", 0));
    OwnIteratorTranslated(Object("C", 0));
  }
}
