/** A core program and its translation take the same path, step by step. */
module AsyncSimulation {
  import opened PythonAst
  import opened AsyncSemantics
  import opened CoreLanguage

  // ----- Variables -----

  /** Every variable holds what it may hold, and under its new name the same. */
  ghost predicate Paired(rename: Renaming, variables: map<string, Classes>, env: Env, env': Env) {
    && (forall x | x in env :: x in variables && Fits(env[x], variables[x]))
    && (forall x | x in variables ::
      if x in env then rename(x) in env' && env'[rename(x)] == env[x] else rename(x) !in env')
  }

  ghost predicate Looked(env: Env) {
    true
  }

  /** The variables of h, looked into only where `Looked(env')` is mentioned. */
  ghost predicate SameEnv<W>(k: Pairing<W>, h: Fn, env: Env, env': Env) {
    forall j: Env {:trigger Looked(j)} :: j == env' ==> Paired(k.rename, k.t.variables(h), env, j)
  }

  lemma PairedUpdate(rename: Renaming, variables: map<string, Classes>, env: Env, env': Env, x: string, v: Val)
    requires Paired(rename, variables, env, env') && StayDistinct(rename, variables.Keys)
    requires x in variables && Fits(v, variables[x])
    ensures Paired(rename, variables, env[x := v], env'[rename(x) := v])
  {
    forall y | y in variables && y != x ensures rename(y) != rename(x) {
      assert y in variables.Keys && x in variables.Keys;
    }
  }

  /** The values may be given to the function. */
  ghost predicate AcceptsAll<W>(k: Pairing<W>, f: Fn, vs: seq<Val>) {
    && OnItsClass(f, vs)
    && (f in k.p.defs && IsDefinition(k.p.defs[f]) ==>
      forall i | 0 <= i < |vs| && i < |k.p.defs[f].params| ::
        k.p.defs[f].params[i] in k.t.variables(f) && Fits(vs[i], k.t.variables(f)[k.p.defs[f].params[i]]))
  }

  lemma {:induction false} BindPaired(rename: Renaming, variables: map<string, Classes>,
                                      params: seq<string>, params': seq<string>, args: seq<Val>)
    requires |params| == |params'| == |args| && StayDistinct(rename, variables.Keys)
    requires forall i | 0 <= i < |params| :: params'[i] == rename(params[i])
    requires forall i | 0 <= i < |params| :: params[i] in variables && Fits(args[i], variables[params[i]])
    ensures Paired(rename, variables, Bind(params, args), Bind(params', args))
    decreases |params|
  {
    if params != [] {
      var n := |params| - 1;
      BindPaired(rename, variables, params[..n], params'[..n], args[..n]);
      PairedUpdate(rename, variables, Bind(params[..n], args[..n]), Bind(params'[..n], args[..n]), params[n], args[n]);
    }
  }

  // ----- Definitions -----

  /** Two bodies that run alike. */
  ghost predicate RunAlike<W(!new)>(q: Program<W>, b: seq<Stmt>, b': seq<Stmt>) {
    forall env, w, fuel :: ExecBlock(q, b', env, w, fuel) == ExecBlock(q, b, env, w, fuel)
  }

  /** d is the sync form of the definition of h. */
  ghost predicate IsForm<W(!new)>(k: Pairing<W>, h: Fn, d: Stmt)
    requires h in k.p.defs && IsDefinition(k.p.defs[h])
  {
    var params := k.p.defs[h].params;
    && d.FunctionDef? && |d.params| == |params| && (forall i | 0 <= i < |params| :: d.params[i] == k.rename(params[i]))
    && RunAlike(k.q, FormOfBlock(k.rename, k.p.defs[h].body), d.body)
  }

  /** What g stands for is the sync form of a definition. */
  ghost predicate HasForm<W(!new)>(k: Pairing<W>, g: Fn)
    requires forall f | f in k.p.defs :: IsDefinition(k.p.defs[f])
  {
    g in k.q.defs && exists f :: f in k.p.defs && NewName(k, f) == g && IsForm(k, f, k.q.defs[g])
  }

  /** The translation consists of the sync forms of the definitions. */
  ghost predicate Formed<W(!new)>(k: Pairing<W>) {
    && (forall f | f in k.p.defs :: IsDefinition(k.p.defs[f]) && NewName(k, f) in k.q.defs)
    && (forall g {:trigger HasForm(k, g)} | g in k.q.defs :: HasForm(k, g))
  }

  ghost predicate Opened<W>(k: Pairing<W>) {
    true
  }

  /** What every step relies on, looked into only where `Opened(k)` is mentioned. */
  ghost predicate Ready<W(!new)>(k: Pairing<W>) {
    forall j: Pairing<W> {:trigger Opened(j)} :: j == k ==> CoreProgram(j) && Formed(j)
  }

  lemma CoreIsReady<W(!new)>(k: Pairing<W>)
    requires CoreProgram(k) && Formed(k)
    ensures Ready(k)
  {
  }

  // ----- Functions under their new names -----

  lemma NothingAsync<W(!new)>(k: Pairing<W>, g: Fn)
    requires Ready(k)
    ensures !IsAsync(k.q, g)
  {
    assert Opened(k);
    if g in k.q.defs {
      assert HasForm(k, g);
    } else if g in k.q.linked {
      assert IsCounterpartIn(k, g);
    }
  }

  lemma NewDefinition<W(!new)>(k: Pairing<W>, f: Fn, g: Fn)
    requires Ready(k) && Becomes(k, f, g) && f in k.p.defs
    ensures g in k.q.defs && IsDefinition(k.p.defs[f]) && IsForm(k, f, k.q.defs[g])
  {
    assert Opened(k);
    assert HasForm(k, g);
    var f' :| f' in k.p.defs && NewName(k, f') == g && IsForm(k, f', k.q.defs[g]);
    assert Known(k.p, f');
  }

  lemma NewLinked<W(!new)>(k: Pairing<W>, f: Fn, g: Fn, args: seq<Val>, w: W)
    requires Ready(k) && Becomes(k, f, g) && f in k.p.linked && f !in k.p.defs
    ensures g in k.q.linked && g !in k.q.defs && k.q.primitive(g, args, w) == k.p.primitive(f, args, w)
  {
    assert Opened(k);
    assert SameFunction(k, f, g);
    if g in k.q.defs {
      assert HasForm(k, g);
      var f' :| f' in k.p.defs && NewName(k, f') == g && IsForm(k, f', k.q.defs[g]);
      assert Known(k.p, f');
    }
  }

  lemma NewlyKnown<W(!new)>(k: Pairing<W>, f: Fn, g: Fn)
    requires Ready(k) && Becomes(k, f, g)
    ensures Known(k.p, f) ==> Known(k.q, g)
    ensures k.strict && Known(k.q, g) ==> Known(k.p, f)
  {
    assert Opened(k);
    if k.strict && g in k.q.defs {
      assert HasForm(k, g);
      var f' :| f' in k.p.defs && NewName(k, f') == g && IsForm(k, f', k.q.defs[g]);
      assert Known(k.p, f');
    } else if k.strict && g in k.q.linked {
      assert IsCounterpartIn(k, g);
      var f' :| f' in k.p.linked && f' !in k.p.defs && NewName(k, f') == g;
      assert Known(k.p, f');
    }
  }

  // ----- The two runs side by side -----

  /** The same outcome, of the classes it may be, and the same world; without `strict`, unless the
      original is stuck on a misused value. */
  ghost predicate Same<W>(k: Pairing<W>, cs: Classes, original: (Outcome<Val>, W), translated: (Outcome<Val>, W)) {
    (!k.strict && original.0.Misused?) || (translated == original && OutcomeFits(k.t, original.0, cs))
  }

  ghost predicate SameEach<W>(
      k: Pairing<W>, h: Fn, es: seq<Expr>, original: (Outcome<seq<Val>>, W), translated: (Outcome<seq<Val>>, W)) {
    || (!k.strict && original.0.Misused?)
    || (translated == original
        && (original.0.Raised? ==> Fits(original.0.exception, k.t.exceptions))
        && (original.0.Got? ==>
          && |original.0.value| == |es|
          && forall i | 0 <= i < |es| :: Fits(original.0.value[i], ClassesOf(k.t, h, es[i]))))
  }

  /** The function called is the same, is async or not as it must be, and takes what it is given. */
  ghost predicate Matched<W>(k: Pairing<W>, h: Fn, isAsync: bool, args: seq<Expr>, cs: Classes, t: Target, t': Target) {
    && t'.self == t.self && Known(k.p, t.fn) && Becomes(k, t.fn, t'.fn) && IsAsync(k.p, t.fn) == isAsync
    && AcceptsAll(k, t.fn, t.self)
    && (forall i | 0 <= i < |args| :: Accepts(k, t.fn, |t.self| + i, ClassesOf(k.t, h, args[i])))
    && k.t.results(t.fn) <= cs
  }

  ghost predicate SameTarget<W>(k: Pairing<W>, h: Fn, isAsync: bool, args: seq<Expr>, cs: Classes,
                                original: (Outcome<Target>, W), translated: (Outcome<Target>, W)) {
    || (!k.strict && original.0.Misused?)
    || (translated.1 == original.1
        && if original.0.Got? then
             translated.0.Got? && Matched(k, h, isAsync, args, cs, original.0.value, translated.0.value)
           else translated.0 == original.0 && (original.0.Raised? ==> Fits(original.0.exception, k.t.exceptions)))
  }

  ghost predicate FlowFits(t: Typing, h: Fn, flow: Flow) {
    (flow.Returned? ==> Fits(flow.value, t.results(h))) && (flow.Raises? ==> Fits(flow.exception, t.exceptions))
  }

  ghost predicate SameFlow<W>(k: Pairing<W>, h: Fn, original: (Flow, Env, W), translated: (Flow, Env, W)) {
    || (!k.strict && original.0.Stuck?)
    || (translated.0 == original.0 && translated.2 == original.2
        && SameEnv(k, h, original.1, translated.1) && FlowFits(k.t, h, original.0))
  }

  lemma LibraryFits<W(!new)>(k: Pairing<W>, f: Fn, args: seq<Val>, w: W)
    requires Ready(k) && f in k.p.linked && OnItsClass(f, args)
    ensures OutcomeFits(k.t, k.p.primitive(f, args, w).0, k.t.results(f))
  {
    assert Opened(k);
  }

  lemma OperatorsAlike<W(!new)>(k: Pairing<W>, l: Val, op: string, r: Val)
    requires Ready(k)
    ensures k.q.binary(l, op, r) == k.p.binary(l, op, r) && OutcomeFits(k.t, k.p.binary(l, op, r), k.t.operators(op))
  {
    assert Opened(k);
  }

  lemma AttributesAlike<W(!new)>(k: Pairing<W>, v: Val, a: string, w: W)
    requires Ready(k) && a in k.p.attributes
    ensures k.rename(a) in k.q.attributes && k.q.attribute(v, k.rename(a), w) == k.p.attribute(v, a, w)
    ensures OutcomeFits(k.t, k.p.attribute(v, a, w), k.t.attributes(a))
  {
    assert Opened(k) && SameAttribute(k, a);
  }

  lemma DefinitionsCore<W(!new)>(k: Pairing<W>, h: Fn)
    requires Ready(k) && h in k.p.defs
    ensures CoreDef(k, h)
  {
    assert Opened(k);
  }

  lemma {:induction false} ExprSame<W(!new)>(k: Pairing<W>, h: Fn, e: Expr, env: Env, env': Env, w: W, fuel: nat)
    requires Ready(k) && CoreExpr(k, h, e) && SameEnv(k, h, env, env')
    ensures Same(k, ClassesOf(k.t, h, e), EvalExpr(k.p, e, env, w, fuel),
                 EvalExpr(k.q, FormOf(k.rename, e), env', w, fuel))
    decreases fuel, 1, e, 4
  {
    match e
    case Name(x) => assert Looked(env');
    case Constant(_) =>
    case Attribute(o, a) => AttributeSame(k, h, o, a, env, env', w, fuel);
    case BinOp(l, op, r) => BinOpSame(k, h, l, op, r, env, env', w, fuel);
    case Call(f, args) => CallSame(k, h, false, f, args, env, env', w, fuel);
    case Await(v) => CallSame(k, h, true, v.func, v.args, env, env', w, fuel);
  }

  /** Where the classes of the value do not matter. */
  ghost predicate SameRun<W>(k: Pairing<W>, original: (Outcome<Val>, W), translated: (Outcome<Val>, W)) {
    || (!k.strict && original.0.Misused?)
    || (translated == original && (original.0.Raised? ==> Fits(original.0.exception, k.t.exceptions)))
  }

  lemma {:induction false} ExprRuns<W(!new)>(k: Pairing<W>, h: Fn, e: Expr, env: Env, env': Env, w: W, fuel: nat)
    requires Ready(k) && CoreExpr(k, h, e) && SameEnv(k, h, env, env')
    ensures SameRun(k, EvalExpr(k.p, e, env, w, fuel), EvalExpr(k.q, FormOf(k.rename, e), env', w, fuel))
    decreases fuel, 1, e, 5
  {
    ExprSame(k, h, e, env, env', w, fuel);
  }

  lemma {:induction false} AttributeSame<W(!new)>(
      k: Pairing<W>, h: Fn, o: Expr, a: string, env: Env, env': Env, w: W, fuel: nat)
    requires Ready(k) && CoreExpr(k, h, o) && a in k.p.attributes && SameEnv(k, h, env, env')
    ensures Same(k, k.t.attributes(a), EvalExpr(k.p, Attribute(o, a), env, w, fuel),
                 EvalExpr(k.q, FormOf(k.rename, Attribute(o, a)), env', w, fuel))
    decreases fuel, 1, Attribute(o, a), 3
  {
    ExprRuns(k, h, o, env, env', w, fuel);
    var (v, w1) := EvalExpr(k.p, o, env, w, fuel);
    if v.Got? {
      AttributesAlike(k, v.value, a, w1);
    }
  }

  lemma EvalBinOp<W>(p: Program<W>, l: Expr, op: string, r: Expr, env: Env, w: W, fuel: nat)
    ensures
      var (lv, w1) := EvalExpr(p, l, env, w, fuel);
      var (rv, w2) := EvalExpr(p, r, env, w1, fuel);
      EvalExpr(p, BinOp(l, op, r), env, w, fuel)
        == if !lv.Got? then (lv, w1) else if !rv.Got? then (rv, w2) else (p.binary(lv.value, op, rv.value), w2)
  {
  }

  lemma {:induction false} BinOpSame<W(!new)>(
      k: Pairing<W>, h: Fn, l: Expr, op: string, r: Expr, env: Env, env': Env, w: W, fuel: nat)
    requires Ready(k) && CoreExpr(k, h, l) && CoreExpr(k, h, r) && SameEnv(k, h, env, env')
    ensures Same(k, k.t.operators(op), EvalExpr(k.p, BinOp(l, op, r), env, w, fuel),
                 EvalExpr(k.q, FormOf(k.rename, BinOp(l, op, r)), env', w, fuel))
    decreases fuel, 1, BinOp(l, op, r), 3
  {
    EvalBinOp(k.p, l, op, r, env, w, fuel);
    EvalBinOp(k.q, FormOf(k.rename, l), op, FormOf(k.rename, r), env', w, fuel);
    ExprRuns(k, h, l, env, env', w, fuel);
    var (lv, w1) := EvalExpr(k.p, l, env, w, fuel);
    if lv.Got? {
      ExprRuns(k, h, r, env, env', w1, fuel);
      var rv := EvalExpr(k.p, r, env, w1, fuel).0;
      if rv.Got? {
        OperatorsAlike(k, lv.value, op, rv.value);
      }
    }
  }

  /** A call that runs its function at once: a call of a sync function, or an awaited call of an
      async one. */
  function CallNow<W>(p: Program<W>, f: Expr, args: seq<Expr>, env: Env, w: W, fuel: nat): (Outcome<Val>, W) {
    var (t, w1) := EvalTarget(p, f, env, w, fuel);
    if !t.Got? then (Failed(t), w1)
    else
      var (vs, w2) := EvalExprs(p, args, env, w1, fuel);
      if !vs.Got? then (Failed(vs), w2) else RunNow(p, t.value.fn, t.value.self + vs.value, w2, fuel)
  }

  lemma CallIsNow<W(!new)>(p: Program<W>, isAsync: bool, f: Expr, args: seq<Expr>, env: Env, w: W, fuel: nat)
    requires var t := EvalTarget(p, f, env, w, fuel).0; t.Got? ==> IsAsync(p, t.value.fn) == isAsync
    ensures EvalExpr(p, if isAsync then Await(Expr.Call(f, args)) else Expr.Call(f, args), env, w, fuel)
         == CallNow(p, f, args, env, w, fuel)
  {
    var (t, w1) := EvalTarget(p, f, env, w, fuel);
    if isAsync && t.Got? {
      var (vs, w2) := EvalExprs(p, args, env, w1, fuel);
      assert EvalExpr(p, Expr.Call(f, args), env, w, fuel)
          == if vs.Got? then (Got(Coroutine(t.value.fn, t.value.self + vs.value)), w2) else (Failed(vs), w2);
    } else if isAsync {
      assert EvalExpr(p, Expr.Call(f, args), env, w, fuel) == (Failed(t), w1);
    }
  }

  /** A call, awaited if its callee is async. */
  lemma {:induction false} CallSame<W(!new)>(
      k: Pairing<W>, h: Fn, isAsync: bool, f: Expr, args: seq<Expr>, env: Env, env': Env, w: W, fuel: nat)
    requires Ready(k) && CoreCallee(k, h, isAsync, f, args) && CoreExprs(k, h, args)
    requires SameEnv(k, h, env, env')
    ensures
      var call := if isAsync then Await(Expr.Call(f, args)) else Expr.Call(f, args);
      Same(k, ClassesOf(k.t, h, Expr.Call(f, args)),
           EvalExpr(k.p, call, env, w, fuel), EvalExpr(k.q, FormOf(k.rename, call), env', w, fuel))
    decreases fuel, 1, Expr.Call(f, args), 3
  {
    TargetSame(k, h, isAsync, f, args, env, env', w, fuel);
    CalledMisused(k.p, isAsync, f, args, env, w, fuel);
    CallIsNow(k.p, isAsync, f, args, env, w, fuel);
    var t' := EvalTarget(k.q, FormOf(k.rename, f), env', w, fuel).0;
    if t'.Got? {
      NothingAsync(k, t'.value.fn);
    }
    CallIsNow(k.q, false, FormOf(k.rename, f), FormOfEach(k.rename, args), env', w, fuel);
    NowSame(k, h, isAsync, f, args, env, env', w, fuel);
  }

  lemma CalledMisused<W(!new)>(p: Program<W>, isAsync: bool, f: Expr, args: seq<Expr>, env: Env, w: W, fuel: nat)
    ensures EvalTarget(p, f, env, w, fuel).0.Misused? ==>
      EvalExpr(p, if isAsync then Await(Expr.Call(f, args)) else Expr.Call(f, args), env, w, fuel).0.Misused?
  {
    var (t, w1) := EvalTarget(p, f, env, w, fuel);
    if t.Misused? {
      assert EvalExpr(p, Expr.Call(f, args), env, w, fuel) == (Failed(t), w1);
    }
  }

  lemma {:induction false} TargetSame<W(!new)>(
      k: Pairing<W>, h: Fn, isAsync: bool, f: Expr, args: seq<Expr>, env: Env, env': Env, w: W, fuel: nat)
    requires Ready(k) && CoreCallee(k, h, isAsync, f, args) && SameEnv(k, h, env, env')
    ensures SameTarget(k, h, isAsync, args, ClassesOf(k.t, h, Expr.Call(f, args)),
                       EvalTarget(k.p, f, env, w, fuel), EvalTarget(k.q, FormOf(k.rename, f), env', w, fuel))
    decreases fuel, 1, f, 5
  {
    if f.Name? {
      assert FormOf(k.rename, f) == Name(k.rename(f.id));
      NewlyKnown(k, Plain(f.id), Plain(k.rename(f.id)));
    } else {
      var o, a := f.object_, f.attr;
      assert FormOf(k.rename, f) == Attribute(FormOf(k.rename, o), k.rename(a));
      ExprSame(k, h, o, env, env', w, fuel);
      var ov := EvalExpr(k.p, o, env, w, fuel).0;
      if ov.Got? && ov.value.Object? {
        MethodMatched(k, h, isAsync, o, a, args, ov.value);
      }
    }
  }

  lemma MethodMatched<W(!new)>(k: Pairing<W>, h: Fn, isAsync: bool, o: Expr, a: string, args: seq<Expr>, v: Val)
    requires Ready(k) && CoreCallee(k, h, isAsync, Attribute(o, a), args)
    requires v.Object? && Fits(v, ClassesOf(k.t, h, o))
    ensures
      var f, g := Method(v.class_, a), Method(v.class_, k.rename(a));
      && (Known(k.p, f) ==>
        && Known(k.q, g)
        && Matched(k, h, isAsync, args, ClassesOf(k.t, h, Expr.Call(Attribute(o, a), args)),
                   Target(f, [v]), Target(g, [v])))
      && (k.strict && Known(k.q, g) ==> Known(k.p, f))
  {
    var f, g := Method(v.class_, a), Method(v.class_, k.rename(a));
    assert MethodFits(k, h, isAsync, v.class_, a, args);
    NewlyKnown(k, f, g);
    if Known(k.p, f) {
      assert Accepts(k, f, 0, [iset{v.class_}][0]);
      assert k.t.results(f) <= ResultsOf(k.t, ClassesOf(k.t, h, o), a);
    }
  }

  lemma {:induction false} NowSame<W(!new)>(
      k: Pairing<W>, h: Fn, isAsync: bool, f: Expr, args: seq<Expr>, env: Env, env': Env, w: W, fuel: nat)
    requires Ready(k) && CoreExprs(k, h, args) && SameEnv(k, h, env, env')
    requires SameTarget(k, h, isAsync, args, ClassesOf(k.t, h, Expr.Call(f, args)),
                        EvalTarget(k.p, f, env, w, fuel), EvalTarget(k.q, FormOf(k.rename, f), env', w, fuel))
    ensures Same(k, ClassesOf(k.t, h, Expr.Call(f, args)), CallNow(k.p, f, args, env, w, fuel),
                 CallNow(k.q, FormOf(k.rename, f), FormOfEach(k.rename, args), env', w, fuel))
    decreases fuel, 1, Expr.Call(f, args), 2
  {
    var (t, w1) := EvalTarget(k.p, f, env, w, fuel);
    if t.Got? {
      ExprsSame(k, h, args, env, env', w1, fuel);
      var (vs, w2) := EvalExprs(k.p, args, env, w1, fuel);
      var t' := EvalTarget(k.q, FormOf(k.rename, f), env', w, fuel).0;
      if vs.Got? {
        RunSame(k, h, isAsync, args, ClassesOf(k.t, h, Expr.Call(f, args)), t.value, t'.value, vs.value, w2, fuel);
      }
    }
  }

  lemma {:induction false} RunSame<W(!new)>(k: Pairing<W>, h: Fn, isAsync: bool, args: seq<Expr>, cs: Classes,
                                            t: Target, t': Target, vs: seq<Val>, w: W, fuel: nat)
    requires Ready(k) && Matched(k, h, isAsync, args, cs, t, t') && |vs| == |args|
    requires forall i | 0 <= i < |args| :: Fits(vs[i], ClassesOf(k.t, h, args[i]))
    ensures Same(k, cs, RunNow(k.p, t.fn, t.self + vs, w, fuel), RunNow(k.q, t'.fn, t'.self + vs, w, fuel))
    decreases fuel, 0
  {
    if fuel > 0 {
      ArgumentsAccepted(k, h, t.fn, t.self, args, vs);
      InvokeSame(k, t.fn, t'.fn, t.self + vs, w, fuel - 1);
    }
  }

  lemma ArgumentsAccepted<W(!new)>(k: Pairing<W>, h: Fn, f: Fn, self: seq<Val>, args: seq<Expr>, vs: seq<Val>)
    requires AcceptsAll(k, f, self) && |vs| == |args|
    requires forall i | 0 <= i < |args| :: Accepts(k, f, |self| + i, ClassesOf(k.t, h, args[i]))
    requires forall i | 0 <= i < |args| :: Fits(vs[i], ClassesOf(k.t, h, args[i]))
    ensures AcceptsAll(k, f, self + vs)
  {
    var all := self + vs;
    assert self != [] ==> all[0] == self[0];
    if f in k.p.defs && IsDefinition(k.p.defs[f]) {
      var params := k.p.defs[f].params;
      forall i | 0 <= i < |all| && i < |params|
        ensures params[i] in k.t.variables(f) && Fits(all[i], k.t.variables(f)[params[i]])
      {
        if i < |self| {
          assert all[i] == self[i];
        } else {
          var j := i - |self|;
          assert all[i] == vs[j] && Fits(vs[j], ClassesOf(k.t, h, args[j]));
          assert Accepts(k, f, |self| + j, ClassesOf(k.t, h, args[j]));
        }
      }
    }
  }

  lemma {:induction false} ExprsSame<W(!new)>(k: Pairing<W>, h: Fn, es: seq<Expr>, env: Env, env': Env, w: W, fuel: nat)
    requires Ready(k) && CoreExprs(k, h, es) && SameEnv(k, h, env, env')
    ensures SameEach(k, h, es, EvalExprs(k.p, es, env, w, fuel),
                     EvalExprs(k.q, FormOfEach(k.rename, es), env', w, fuel))
    decreases fuel, 1, es, 0
  {
    if es != [] {
      ExprSame(k, h, es[0], env, env', w, fuel);
      ExprsSame(k, h, es[1..], env, env', EvalExpr(k.p, es[0], env, w, fuel).1, fuel);
      assert FormOfEach(k.rename, es)[1..] == FormOfEach(k.rename, es[1..]);
    }
  }

  lemma {:induction false} InvokeSame<W(!new)>(k: Pairing<W>, f: Fn, g: Fn, args: seq<Val>, w: W, fuel: nat)
    requires Ready(k) && Known(k.p, f) && Becomes(k, f, g) && AcceptsAll(k, f, args)
    ensures Same(k, k.t.results(f), Invoke(k.p, f, args, w, fuel), Invoke(k.q, g, args, w, fuel))
    decreases fuel, 3
  {
    if f in k.p.defs {
      NewDefinition(k, f, g);
      if |k.p.defs[f].params| == |args| {
        DefinedSame(k, f, k.q.defs[g], args, w, fuel);
      }
    } else {
      NewLinked(k, f, g, args, w);
      LibraryFits(k, f, args, w);
    }
  }

  lemma {:induction false} DefinedSame<W(!new)>(k: Pairing<W>, f: Fn, d': Stmt, args: seq<Val>, w: W, fuel: nat)
    requires Ready(k) && f in k.p.defs && IsDefinition(k.p.defs[f]) && IsForm(k, f, d')
    requires |k.p.defs[f].params| == |args| && AcceptsAll(k, f, args)
    ensures
      var d := k.p.defs[f];
      var (flow, _, w1) := ExecBlock(k.p, d.body, Bind(d.params, args), w, fuel);
      var (flow', _, w1') := ExecBlock(k.q, d'.body, Bind(d'.params, args), w, fuel);
      Same(k, k.t.results(f), (AsResult(flow), w1), (AsResult(flow'), w1'))
    decreases fuel, 2
  {
    var d := k.p.defs[f];
    DefinitionsCore(k, f);
    ArgumentsBound(k, f, d', args);
    BlockSame(k, f, d.body, Bind(d.params, args), Bind(d'.params, args), w, fuel);
  }

  lemma ArgumentsBound<W(!new)>(k: Pairing<W>, f: Fn, d': Stmt, args: seq<Val>)
    requires f in k.p.defs && CoreDef(k, f) && IsForm(k, f, d')
    requires |k.p.defs[f].params| == |args| && AcceptsAll(k, f, args)
    ensures SameEnv(k, f, Bind(k.p.defs[f].params, args), Bind(d'.params, args))
  {
    BindPaired(k.rename, k.t.variables(f), k.p.defs[f].params, d'.params, args);
  }

  lemma {:induction false} BlockSame<W(!new)>(k: Pairing<W>, h: Fn, b: seq<Stmt>, env: Env, env': Env, w: W, fuel: nat)
    requires Ready(k) && CoreBlock(k, h, b) && h in k.p.defs && SameEnv(k, h, env, env')
    ensures SameFlow(k, h, ExecBlock(k.p, b, env, w, fuel), ExecBlock(k.q, FormOfBlock(k.rename, b), env', w, fuel))
    decreases fuel, 2, b, 0
  {
    if b != [] {
      StmtSame(k, h, b[0], env, env', w, fuel);
      var (flow, env1, w1) := ExecStmt(k.p, b[0], env, w, fuel);
      var (_, env1', _) := ExecStmt(k.q, FormOfStmt(k.rename, b[0]), env', w, fuel);
      assert FormOfBlock(k.rename, b)[1..] == FormOfBlock(k.rename, b[1..]);
      if flow.Next? {
        BlockSame(k, h, b[1..], env1, env1', w1, fuel);
      }
    }
  }

  /** Every core statement and what it becomes take the same path. */
  lemma {:induction false} StmtSame<W(!new)>(k: Pairing<W>, h: Fn, s: Stmt, env: Env, env': Env, w: W, fuel: nat)
    requires Ready(k) && CoreStmt(k, h, s) && h in k.p.defs && SameEnv(k, h, env, env')
    ensures SameFlow(k, h, ExecStmt(k.p, s, env, w, fuel), ExecStmt(k.q, FormOfStmt(k.rename, s), env', w, fuel))
    decreases fuel, 2, s, 3
  {
    match s
    case Pass =>
    case Comment(_) =>
    case ExprStmt(e) => ExprRuns(k, h, e, env, env', w, fuel);
    case Assign(x, e) => AssignSame(k, h, x, e, env, env', w, fuel);
    case Return(e) => ExprSame(k, h, e, env, env', w, fuel);
    case If(e, b, o) => IfSame(k, h, e, b, o, env, env', w, fuel);
    case While(e, b) => WhileSame(k, h, e, b, env, env', w, fuel);
    case For(x, i, b, o) => ForSame(k, h, false, x, i, b, o, env, env', w, fuel);
    case AsyncFor(x, i, b, o) => ForSame(k, h, true, x, i, b, o, env, env', w, fuel);
    case With(c, x, b) => WithSame(k, h, false, c, x, b, env, env', w, fuel);
    case AsyncWith(c, x, b) => WithSame(k, h, true, c, x, b, env, env', w, fuel);
  }

  lemma {:induction false} AssignSame<W(!new)>(
      k: Pairing<W>, h: Fn, x: string, e: Expr, env: Env, env': Env, w: W, fuel: nat)
    requires Ready(k) && CoreExpr(k, h, e) && Holds(k.t, h, x, ClassesOf(k.t, h, e)) && h in k.p.defs
    requires SameEnv(k, h, env, env')
    ensures SameFlow(k, h, ExecStmt(k.p, Assign(x, e), env, w, fuel),
                     ExecStmt(k.q, Assign(k.rename(x), FormOf(k.rename, e)), env', w, fuel))
    decreases fuel, 2, Assign(x, e), 2
  {
    ExprSame(k, h, e, env, env', w, fuel);
    var v := EvalExpr(k.p, e, env, w, fuel).0;
    if v.Got? {
      VariableSet(k, h, x, v.value, ClassesOf(k.t, h, e), env, env');
    }
  }

  lemma VariableSet<W(!new)>(k: Pairing<W>, h: Fn, x: string, v: Val, cs: Classes, env: Env, env': Env)
    requires Ready(k) && h in k.p.defs && Holds(k.t, h, x, cs) && Fits(v, cs)
    requires SameEnv(k, h, env, env')
    ensures SameEnv(k, h, env[x := v], env'[k.rename(x) := v])
  {
    assert Opened(k) && Looked(env');
    PairedUpdate(k.rename, k.t.variables(h), env, env', x, v);
  }

  lemma {:induction false} IfSame<W(!new)>(
      k: Pairing<W>, h: Fn, e: Expr, b: seq<Stmt>, o: seq<Stmt>, env: Env, env': Env, w: W, fuel: nat)
    requires Ready(k) && CoreExpr(k, h, e) && CoreBlock(k, h, b) && CoreBlock(k, h, o) && h in k.p.defs
    requires SameEnv(k, h, env, env')
    ensures SameFlow(k, h, ExecStmt(k.p, If(e, b, o), env, w, fuel),
                     ExecStmt(k.q, If(FormOf(k.rename, e), FormOfBlock(k.rename, b), FormOfBlock(k.rename, o)),
                              env', w, fuel))
    decreases fuel, 2, If(e, b, o), 2
  {
    ExprRuns(k, h, e, env, env', w, fuel);
    var w1 := EvalExpr(k.p, e, env, w, fuel).1;
    BlockSame(k, h, b, env, env', w1, fuel);
    BlockSame(k, h, o, env, env', w1, fuel);
  }

  lemma {:induction false} WhileSame<W(!new)>(
      k: Pairing<W>, h: Fn, e: Expr, b: seq<Stmt>, env: Env, env': Env, w: W, fuel: nat)
    requires Ready(k) && CoreExpr(k, h, e) && CoreBlock(k, h, b) && h in k.p.defs
    requires SameEnv(k, h, env, env')
    ensures SameFlow(k, h, ExecWhile(k.p, e, b, env, w, fuel),
                     ExecWhile(k.q, FormOf(k.rename, e), FormOfBlock(k.rename, b), env', w, fuel))
    decreases fuel, 2, b, 2
  {
    ExprRuns(k, h, e, env, env', w, fuel);
    var (v, w1) := EvalExpr(k.p, e, env, w, fuel);
    if v.Got? && Truth(v.value) {
      BlockSame(k, h, b, env, env', w1, fuel);
      var (flow, env2, w2) := ExecBlock(k.p, b, env, w1, fuel);
      if flow.Next? && fuel > 0 {
        WhileSame(k, h, e, b, env2, ExecBlock(k.q, FormOfBlock(k.rename, b), env', w1, fuel).1, w2, fuel - 1);
      }
    }
  }

  // ----- Hooks -----

  lemma HookFound<W(!new)>(k: Pairing<W>, isAsync: bool, cs: Classes, role: Role, more: seq<Classes>, o: Val)
    requires Ready(k) && HooksFit(k, isAsync, cs, role, more) && Fits(o, cs)
    ensures HasHook(k.p, isAsync, o, role) ==> HasHook(k.q, false, o, role)
    ensures k.strict && HasHook(k.q, false, o, role) ==> HasHook(k.p, isAsync, o, role)
  {
    if o.Object? {
      var f, g := HookOf(o.class_, isAsync, role), HookOf(o.class_, false, role);
      assert HookFits(k, isAsync, o.class_, role, more);
      NewlyKnown(k, f, g);
      NothingAsync(k, g);
    }
  }

  /** What the values given to a hook besides its object may be. */
  ghost predicate FitEach(vs: seq<Val>, more: seq<Classes>) {
    |vs| == |more| && forall i | 0 <= i < |vs| :: Fits(vs[i], more[i])
  }

  lemma {:induction false} HookSame<W(!new)>(k: Pairing<W>, isAsync: bool, cs: Classes, role: Role, more: seq<Classes>,
                                       o: Val, vs: seq<Val>, w: W, fuel: nat)
    requires Ready(k) && HooksFit(k, isAsync, cs, role, more) && Fits(o, cs) && FitEach(vs, more)
    ensures Same(k, ResultsOf(k.t, cs, HookName(isAsync, role)),
                 CallHook(k.p, isAsync, o, role, [o] + vs, w, fuel), CallHook(k.q, false, o, role, [o] + vs, w, fuel))
    decreases fuel, 4
  {
    HookFound(k, isAsync, cs, role, more, o);
    if HasHook(k.p, isAsync, o, role) {
      var f, g := HookOf(o.class_, isAsync, role), HookOf(o.class_, false, role);
      HookAccepts(k, isAsync, o, role, more, vs);
      InvokeSame(k, f, g, [o] + vs, w, fuel);
      assert k.t.results(f) <= ResultsOf(k.t, cs, HookName(isAsync, role));
    }
  }

  lemma HookAccepts<W(!new)>(k: Pairing<W>, isAsync: bool, o: Val, role: Role, more: seq<Classes>, vs: seq<Val>)
    requires o.Object? && HookFits(k, isAsync, o.class_, role, more) && FitEach(vs, more)
    requires Known(k.p, HookOf(o.class_, isAsync, role))
    ensures AcceptsAll(k, HookOf(o.class_, isAsync, role), [o] + vs)
  {
    var f, cs, all := HookOf(o.class_, isAsync, role), [iset{o.class_}] + more, [o] + vs;
    if f in k.p.defs && IsDefinition(k.p.defs[f]) {
      var params := k.p.defs[f].params;
      forall i | 0 <= i < |all| && i < |params|
        ensures params[i] in k.t.variables(f) && Fits(all[i], k.t.variables(f)[params[i]])
      {
        assert i > 0 ==> all[i] == vs[i - 1] && cs[i] == more[i - 1];
        assert Accepts(k, f, i, cs[i]);
      }
    }
  }

  lemma {:induction false} ForSame<W(!new)>(k: Pairing<W>, h: Fn, isAsync: bool, x: string, i: Expr,
      b: seq<Stmt>, o: seq<Stmt>, env: Env, env': Env, w: W, fuel: nat)
    requires Ready(k) && CoreFor(k, h, isAsync, x, i) && CoreBlock(k, h, b) && CoreBlock(k, h, o)
    requires h in k.p.defs && SameEnv(k, h, env, env')
    ensures SameFlow(k, h, ExecFor(k.p, isAsync, x, i, b, o, env, w, fuel),
                     ExecFor(k.q, false, k.rename(x), FormOf(k.rename, i), FormOfBlock(k.rename, b),
                             FormOfBlock(k.rename, o), env', w, fuel))
    decreases fuel, 2, b, 2
  {
    ExprSame(k, h, i, env, env', w, fuel);
    var (it, w1) := EvalExpr(k.p, i, env, w, fuel);
    if it.Got? && fuel > 0 {
      IterateOverSame(k, h, isAsync, x, ClassesOf(k.t, h, i), it.value, b, o, env, env', w1, fuel - 1);
    }
  }

  lemma {:induction false} IterateOverSame<W(!new)>(k: Pairing<W>, h: Fn, isAsync: bool, x: string, cs: Classes,
      it: Val, b: seq<Stmt>, o: seq<Stmt>, env: Env, env': Env, w: W, fuel: nat)
    requires Ready(k) && CoreBlock(k, h, b) && CoreBlock(k, h, o) && h in k.p.defs
    requires IteratesInto(k, h, isAsync, cs, x) && Fits(it, cs)
    requires SameEnv(k, h, env, env')
    ensures SameFlow(k, h, IterateOver(k.p, isAsync, x, it, b, o, env, w, fuel),
                     IterateOver(k.q, false, k.rename(x), it, FormOfBlock(k.rename, b),
                                 FormOfBlock(k.rename, o), env', w, fuel))
    decreases fuel, 6
  {
    HookSame(k, isAsync, cs, IterHook, [], it, [], w, fuel);
    assert [it] + [] == [it];
    var (cursor, w1) := CallHook(k.p, isAsync, it, IterHook, [it], w, fuel);
    if cursor.Got? {
      var iterators := ResultsOf(k.t, cs, HookName(isAsync, IterHook));
      IterateSame(k, h, isAsync, x, iterators, cursor.value, b, o, env, env', w1, fuel);
    }
  }

  lemma {:induction false} IterateSame<W(!new)>(k: Pairing<W>, h: Fn, isAsync: bool, x: string, cs: Classes, it: Val,
      b: seq<Stmt>, o: seq<Stmt>, env: Env, env': Env, w: W, fuel: nat)
    requires Ready(k) && CoreBlock(k, h, b) && CoreBlock(k, h, o) && h in k.p.defs
    requires HooksFit(k, isAsync, cs, NextHook, []) && Fits(it, cs)
    requires Holds(k.t, h, x, ResultsOf(k.t, cs, HookName(isAsync, NextHook)))
    requires SameEnv(k, h, env, env')
    ensures SameFlow(k, h, Iterate(k.p, isAsync, x, it, b, o, env, w, fuel),
                     Iterate(k.q, false, k.rename(x), it, FormOfBlock(k.rename, b),
                             FormOfBlock(k.rename, o), env', w, fuel))
    decreases fuel, 5
  {
    HookSame(k, isAsync, cs, NextHook, [], it, [], w, fuel);
    assert [it] + [] == [it];
    var (v, w1) := CallHook(k.p, isAsync, it, NextHook, [it], w, fuel);
    if v.Got? && v.value.StopIteration? {
      BlockSame(k, h, o, env, env', w1, fuel);
    } else if v.Got? {
      IterateOnSame(k, h, isAsync, x, cs, it, v.value, b, o, env, env', w1, fuel);
    }
  }

  /** The body with one element, and the iteration after it. */
  lemma {:induction false} IterateOnSame<W(!new)>(k: Pairing<W>, h: Fn, isAsync: bool, x: string, cs: Classes,
      it: Val, v: Val, b: seq<Stmt>, o: seq<Stmt>, env: Env, env': Env, w: W, fuel: nat)
    requires Ready(k) && CoreBlock(k, h, b) && CoreBlock(k, h, o) && h in k.p.defs
    requires HooksFit(k, isAsync, cs, NextHook, []) && Fits(it, cs)
    requires Holds(k.t, h, x, ResultsOf(k.t, cs, HookName(isAsync, NextHook)))
    requires Fits(v, ResultsOf(k.t, cs, HookName(isAsync, NextHook)))
    requires SameEnv(k, h, env, env')
    ensures
      var (flow, env2, w2) := ExecBlock(k.p, b, env[x := v], w, fuel);
      var (flow', env2', w2') := ExecBlock(k.q, FormOfBlock(k.rename, b), env'[k.rename(x) := v], w, fuel);
      && SameFlow(k, h, (flow, env2, w2), (flow', env2', w2'))
      && (flow.Next? && fuel > 0 ==>
        SameFlow(k, h, Iterate(k.p, isAsync, x, it, b, o, env2, w2, fuel - 1),
                 Iterate(k.q, false, k.rename(x), it, FormOfBlock(k.rename, b),
                         FormOfBlock(k.rename, o), env2', w2', fuel - 1)))
    decreases fuel, 4
  {
    VariableSet(k, h, x, v, ResultsOf(k.t, cs, HookName(isAsync, NextHook)), env, env');
    BlockSame(k, h, b, env[x := v], env'[k.rename(x) := v], w, fuel);
    var (flow, env2, w2) := ExecBlock(k.p, b, env[x := v], w, fuel);
    var (_, env2', _) := ExecBlock(k.q, FormOfBlock(k.rename, b), env'[k.rename(x) := v], w, fuel);
    if flow.Next? && fuel > 0 {
      IterateSame(k, h, isAsync, x, cs, it, b, o, env2, env2', w2, fuel - 1);
    }
  }

  lemma {:induction false} WithSame<W(!new)>(k: Pairing<W>, h: Fn, isAsync: bool, c: Expr, x: string,
      b: seq<Stmt>, env: Env, env': Env, w: W, fuel: nat)
    requires Ready(k) && CoreWith(k, h, isAsync, c, x) && CoreBlock(k, h, b)
    requires h in k.p.defs && SameEnv(k, h, env, env')
    ensures SameFlow(k, h, ExecWith(k.p, isAsync, c, x, b, env, w, fuel),
                     ExecWith(k.q, false, FormOf(k.rename, c), k.rename(x), FormOfBlock(k.rename, b), env', w, fuel))
    decreases fuel, 2, b, 2
  {
    ExprSame(k, h, c, env, env', w, fuel);
    var (m, w1) := EvalExpr(k.p, c, env, w, fuel);
    if m.Got? && fuel > 0 {
      EnterSame(k, h, isAsync, ClassesOf(k.t, h, c), m.value, x, b, env, env', w1, fuel);
    }
  }

  lemma {:induction false} EnterSame<W(!new)>(k: Pairing<W>, h: Fn, isAsync: bool, cs: Classes, m: Val, x: string,
      b: seq<Stmt>, env: Env, env': Env, w: W, fuel: nat)
    requires Ready(k) && CoreBlock(k, h, b) && h in k.p.defs && fuel > 0
    requires EntersInto(k, h, isAsync, cs, x) && Fits(m, cs)
    requires SameEnv(k, h, env, env')
    ensures SameFlow(k, h, EnterWith(k.p, isAsync, m, x, b, env, w, fuel),
                     EnterWith(k.q, false, m, k.rename(x), FormOfBlock(k.rename, b), env', w, fuel))
    decreases fuel, 2, b, 1, 1
  {
    HookFound(k, isAsync, cs, ExitHook, [k.t.exceptions], m);
    if HasHook(k.p, isAsync, m, ExitHook) {
      HookSame(k, isAsync, cs, EnterHook, [], m, [], w, fuel - 1);
      assert [m] + [] == [m];
      var (entered, w1) := CallHook(k.p, isAsync, m, EnterHook, [m], w, fuel - 1);
      if entered.Got? {
        InsideSame(k, h, isAsync, cs, m, x, entered.value, b, env, env', w1, fuel);
      }
    }
  }

  /** The body and the exit. */
  lemma {:induction false} InsideSame<W(!new)>(k: Pairing<W>, h: Fn, isAsync: bool, cs: Classes, m: Val,
      x: string, v: Val, b: seq<Stmt>, env: Env, env': Env, w: W, fuel: nat)
    requires Ready(k) && CoreBlock(k, h, b) && h in k.p.defs && fuel > 0
    requires EntersInto(k, h, isAsync, cs, x) && Fits(m, cs)
    requires Fits(v, ResultsOf(k.t, cs, HookName(isAsync, EnterHook)))
    requires SameEnv(k, h, env, env')
    ensures
      var (flow, env3, w3) := ExecBlock(k.p, b, env[x := v], w, fuel);
      var (flow', env3', w3') := ExecBlock(k.q, FormOfBlock(k.rename, b), env'[k.rename(x) := v], w, fuel);
      SameFlow(k, h, LeaveWith(k.p, isAsync, m, flow, env3, w3, fuel - 1),
               LeaveWith(k.q, false, m, flow', env3', w3', fuel - 1))
    decreases fuel, 2, b, 1, 0
  {
    VariableSet(k, h, x, v, ResultsOf(k.t, cs, HookName(isAsync, EnterHook)), env, env');
    BlockSame(k, h, b, env[x := v], env'[k.rename(x) := v], w, fuel);
    var (flow, env3, w3) := ExecBlock(k.p, b, env[x := v], w, fuel);
    if !flow.Stuck? {
      var env3' := ExecBlock(k.q, FormOfBlock(k.rename, b), env'[k.rename(x) := v], w, fuel).1;
      LeaveSame(k, h, isAsync, cs, m, flow, env3, env3', w3, fuel - 1);
    }
  }

  lemma {:induction false} LeaveSame<W(!new)>(
      k: Pairing<W>, h: Fn, isAsync: bool, cs: Classes, m: Val, flow: Flow, env: Env, env': Env, w: W, fuel: nat)
    requires Ready(k) && HooksFit(k, isAsync, cs, ExitHook, [k.t.exceptions]) && Fits(m, cs)
    requires SameEnv(k, h, env, env') && FlowFits(k.t, h, flow)
    ensures SameFlow(k, h, LeaveWith(k.p, isAsync, m, flow, env, w, fuel),
                     LeaveWith(k.q, false, m, flow, env', w, fuel))
    decreases fuel, 5
  {
    HookSame(k, isAsync, cs, ExitHook, [k.t.exceptions], m, [Told(flow)], w, fuel);
    assert [m] + [Told(flow)] == [m, Told(flow)];
  }
}
