/** async_to_sync keeps the meaning of core programs: run as one task, the async program and its
    translation return the same results and do the same things to the world. */
module AsyncTranslation {
  import opened PythonAst
  import opened AsyncToSync
  import opened AsyncSemantics
  import opened RenameAsyncToSync
  import opened RenameStatements
  import opened SyncPipeline
  import opened CoreLanguage
  import opened AsyncSimulation

  // ----- The translated program -----

  /** What async_to_sync makes of a definition. */
  function SyncOfDef(d: Stmt): Stmt
    requires IsDefinition(d)
  {
    VisitStmt(RenameStmt(d))[0]
  }

  lemma ShapeOfDef(d: Stmt)
    requires IsDefinition(d)
    ensures SyncOfStmt(d) == [SyncOfDef(d)] && SyncOfDef(d).FunctionDef?
    ensures SyncOfDef(d).name == if d.AsyncFunctionDef? then Lookup(d.name) else d.name
    ensures SyncOfDef(d).params == if d.AsyncFunctionDef? then LookupEach(d.params) else d.params
    ensures SyncOfDef(d).body == VisitBlock(FixDocstring(RenameBlock(d.body)))
  {
    var r := RenameStmt(d);
    assert d.FunctionDef? ==> VisitStmt(r) == [InPlaceStmt(r)];
  }

  /** What the sync libraries call what the async ones call by this name. */
  function Counterpart(name: string): string {
    if name == "__anext__" then "__next__" else Lookup(name)
  }

  ghost predicate IsLookup(rename: Renaming) {
    forall x {:trigger Lookup(x)} :: rename(x) == Lookup(x)
  }

  ghost predicate IsCounterpart(rename: Renaming) {
    forall x {:trigger Counterpart(x)} :: rename(x) == Counterpart(x)
  }

  /** What g stands for is the translation of a definition. */
  ghost predicate IsTranslatedDef<W>(k: Pairing<W>, g: Fn)
    requires forall f | f in k.p.defs :: IsDefinition(k.p.defs[f])
  {
    g in k.q.defs && exists f :: f in k.p.defs && NewName(k, f) == g && k.q.defs[g] == SyncOfDef(k.p.defs[f])
  }

  /** k.q consists of the translated definitions of k.p; of definitions that come out under one
      name one remains. */
  ghost predicate IsTranslation<W>(k: Pairing<W>) {
    && IsLookup(k.rename) && IsCounterpart(k.counterpart)
    && (forall f | f in k.p.defs ::
      IsDefinition(k.p.defs[f]) && k.p.defs[f].name == f.name && NewName(k, f) in k.q.defs)
    && (forall g {:trigger IsTranslatedDef(k, g)} | g in k.q.defs :: IsTranslatedDef(k, g))
  }

  // ----- It is the sync form -----

  lemma ShapeOfCall(f: Expr, args: seq<Expr>)
    ensures SyncOf(Expr.Call(f, args)) == Expr.Call(SyncOf(f), SyncOfEach(args))
    ensures SyncOf(Await(Expr.Call(f, args))) == Expr.Call(SyncOf(f), SyncOfEach(args))
  {
    var r := Expr.Call(Rename(f), RenameEach(args));
    assert Rename(Expr.Call(f, args)) == r;
    assert InPlaceExpr(r) == Expr.Call(VisitExpr(Rename(f)), VisitExprs(RenameEach(args)));
  }

  lemma ShapeOfName(rename: Renaming, x: string)
    requires IsLookup(rename)
    ensures SyncOf(Name(x)) == Name(rename(x))
  {
    assert Rename(Name(x)) == Name(Lookup(x));
    assert InPlaceExpr(Name(rename(x))) == Name(rename(x));
  }

  lemma ShapeOfAttribute(rename: Renaming, o: Expr, a: string)
    requires IsLookup(rename)
    ensures SyncOf(Attribute(o, a)) == Attribute(SyncOf(o), rename(a))
  {
    var r := Attribute(Rename(o), rename(a));
    assert Rename(Attribute(o, a)) == Attribute(Rename(o), Lookup(a));
    assert InPlaceExpr(r) == Attribute(VisitExpr(Rename(o)), rename(a));
  }

  lemma ShapeOfBinOp(l: Expr, op: string, r: Expr)
    ensures SyncOf(BinOp(l, op, r)) == BinOp(SyncOf(l), op, SyncOf(r))
  {
    assert Rename(BinOp(l, op, r)) == BinOp(Rename(l), op, Rename(r));
    assert InPlaceExpr(BinOp(Rename(l), op, Rename(r))) == BinOp(SyncOf(l), op, SyncOf(r));
  }

  lemma {:induction false} ExprForm<W>(k: Pairing<W>, h: Fn, e: Expr)
    requires IsLookup(k.rename) && CoreExpr(k, h, e)
    ensures SyncOf(e) == FormOf(k.rename, e)
    decreases e, 1
  {
    match e
    case Name(x) => ShapeOfName(k.rename, x);
    case Constant(_) => assert InPlaceExpr(e) == e;
    case Attribute(o, a) => ShapeOfAttribute(k.rename, o, a); ExprForm(k, h, o);
    case BinOp(l, op, r) => ShapeOfBinOp(l, op, r); ExprForm(k, h, l); ExprForm(k, h, r);
    case Call(f, args) => ShapeOfCall(f, args); CalleeForm(k, h, false, f, args); ExprsForm(k, h, args);
    case Await(v) => ShapeOfCall(v.func, v.args); CalleeForm(k, h, true, v.func, v.args); ExprsForm(k, h, v.args);
  }

  lemma {:induction false} CalleeForm<W>(k: Pairing<W>, h: Fn, isAsync: bool, f: Expr, args: seq<Expr>)
    requires IsLookup(k.rename) && CoreCallee(k, h, isAsync, f, args)
    ensures SyncOf(f) == FormOf(k.rename, f)
    decreases f, 2
  {
    if f.Name? {
      ShapeOfName(k.rename, f.id);
    } else {
      ShapeOfAttribute(k.rename, f.object_, f.attr);
      ExprForm(k, h, f.object_);
    }
  }

  lemma {:induction false} ExprsForm<W>(k: Pairing<W>, h: Fn, es: seq<Expr>)
    requires IsLookup(k.rename) && CoreExprs(k, h, es)
    ensures SyncOfEach(es) == FormOfEach(k.rename, es)
    decreases es, 0
  {
    if es != [] {
      ExprForm(k, h, es[0]);
      ExprsForm(k, h, es[1..]);
      assert RenameEach(es)[1..] == RenameEach(es[1..]);
    }
  }

  lemma {:induction false} StmtForm<W>(k: Pairing<W>, h: Fn, s: Stmt)
    requires IsLookup(k.rename) && CoreStmt(k, h, s)
    ensures SyncOfStmt(s) == [FormOfStmt(k.rename, s)]
    decreases s, 1
  {
    var r := RenameStmt(s);
    RenamingKeepsGuards(s);
    match s
    case Pass => SyncStmtIsFixed(r);
    case Comment(_) => SyncStmtIsFixed(r);
    case ExprStmt(e) => ExprForm(k, h, e); assert VisitStmt(r) == [ExprStmt(SyncOf(e))];
    case Assign(x, e) => ExprForm(k, h, e); assert VisitStmt(r) == [Assign(Lookup(x), SyncOf(e))];
    case Return(e) => ExprForm(k, h, e); assert VisitStmt(r) == [Return(SyncOf(e))];
    case If(e, b, o) => ExprForm(k, h, e); BlockForm(k, h, b); BlockForm(k, h, o);
    case While(e, b) => ExprForm(k, h, e); BlockForm(k, h, b);
    case For(x, i, b, o) => ExprForm(k, h, i); BlockForm(k, h, b); BlockForm(k, h, o);
    case AsyncFor(x, i, b, o) => ExprForm(k, h, i); BlockForm(k, h, b); BlockForm(k, h, o);
    case With(c, x, b) => ExprForm(k, h, c); BlockForm(k, h, b);
    case AsyncWith(c, x, b) => ExprForm(k, h, c); BlockForm(k, h, b);
  }

  lemma {:induction false} BlockForm<W>(k: Pairing<W>, h: Fn, b: seq<Stmt>)
    requires IsLookup(k.rename) && CoreBlock(k, h, b)
    ensures SyncOfBlock(b) == FormOfBlock(k.rename, b)
    decreases b, 0
  {
    if b != [] {
      StmtForm(k, h, b[0]);
      BlockForm(k, h, b[1..]);
      assert RenameBlock(b)[1..] == RenameBlock(b[1..]);
    }
  }

  /** What a docstring says makes no difference. */
  lemma DocstringIgnored<W>(q: Program<W>, b: seq<Stmt>, env: Env, w: W, fuel: nat)
    ensures ExecBlock(q, VisitBlock(FixDocstring(b)), env, w, fuel) == ExecBlock(q, VisitBlock(b), env, w, fuel)
  {
    var b' := FixDocstring(b);
    if b' != b {
      assert b'[1..] == b[1..];
      SyncStmtIsFixed(b[0]);
      SyncStmtIsFixed(b'[0]);
      assert VisitBlock(b)[1..] == VisitBlock(b[1..]) && VisitBlock(b')[1..] == VisitBlock(b[1..]);
      assert ExecStmt(q, b[0], env, w, fuel) == (Flow.Next, env, w) == ExecStmt(q, b'[0], env, w, fuel);
    }
  }

  lemma DefForm<W(!new)>(k: Pairing<W>, h: Fn)
    requires IsLookup(k.rename) && h in k.p.defs && CoreDef(k, h)
    ensures IsForm(k, h, SyncOfDef(k.p.defs[h]))
  {
    var d := k.p.defs[h];
    ShapeOfDef(d);
    BlockForm(k, h, d.body);
    forall env, w, fuel
      ensures ExecBlock(k.q, SyncOfDef(d).body, env, w, fuel)
           == ExecBlock(k.q, FormOfBlock(k.rename, d.body), env, w, fuel)
    {
      DocstringIgnored(k.q, RenameBlock(d.body), env, w, fuel);
    }
  }

  lemma TranslationIsFormed<W(!new)>(k: Pairing<W>)
    requires IsTranslation(k) && CoreProgram(k)
    ensures Ready(k)
  {
    forall g | g in k.q.defs ensures HasForm(k, g) {
      var f := Origin(k, g);
      DefForm(k, f);
    }
    assert Formed(k);
    CoreIsReady(k);
  }

  // ----- The theorem -----

  /** A function of a core program and its translation, called with any arguments that the typing
      admits, in any world and for any length of run, return or raise the same and leave the same
      world, and the one runs on exactly when the other does. When `strict`, that is every for and
      with statement being of the kind that the hooks of the objects it meets are, there is no
      exception to it; otherwise it holds unless the original meets something that is not what it
      is used as. */
  lemma TranslationPreservesRuns<W(!new)>(k: Pairing<W>, f: Fn, args: seq<Val>, w: W, fuel: nat)
    requires IsTranslation(k) && CoreProgram(k)
    requires Known(k.p, f) && Becomes(k, f, NewName(k, f)) && AcceptsAll(k, f, args)
    ensures k.strict || !Invoke(k.p, f, args, w, fuel).0.Misused? ==>
      Invoke(k.q, NewName(k, f), args, w, fuel) == Invoke(k.p, f, args, w, fuel)
  {
    TranslationIsFormed(k);
    InvokeSame(k, f, NewName(k, f), args, w, fuel);
  }

  predicate Named(d: Stmt, name: string) {
    IsDefinition(d) && d.name == name
  }

  lemma Origin<W>(k: Pairing<W>, g: Fn) returns (f: Fn)
    requires IsTranslation(k) && g in k.q.defs
    ensures f in k.p.defs && IsDefinition(k.p.defs[f]) && k.p.defs[f].name == f.name
    ensures NewName(k, f) == g && k.q.defs[g] == SyncOfDef(k.p.defs[f])
  {
    assert IsTranslatedDef(k, g);
    f :| f in k.p.defs && NewName(k, f) == g && k.q.defs[g] == SyncOfDef(k.p.defs[f]);
  }

  lemma NamedAnew<W>(k: Pairing<W>, f: Fn)
    requires IsLookup(k.rename) && f in k.p.defs && IsDefinition(k.p.defs[f]) && k.p.defs[f].name == f.name
    ensures Named(SyncOfDef(k.p.defs[f]), NewName(k, f).name)
  {
    ShapeOfDef(k.p.defs[f]);
  }

  /** Nothing in the translation is async, and its definitions bear the names they are known by. */
  lemma TranslationIsSync<W(!new)>(k: Pairing<W>, g: Fn)
    requires IsTranslation(k) && CoreProgram(k)
    ensures !IsAsync(k.q, g)
    ensures g in k.q.defs ==> SyncStmt(k.q.defs[g]) && Named(k.q.defs[g], g.name)
  {
    TranslationIsFormed(k);
    NothingAsync(k, g);
    if g in k.q.defs {
      var f := Origin(k, g);
      NamedAnew(k, f);
      DefinitionIsSync(k, f);
    }
  }

  lemma DefinitionIsSync<W>(k: Pairing<W>, h: Fn)
    requires h in k.p.defs && CoreDef(k, h)
    ensures SyncStmt(SyncOfDef(k.p.defs[h]))
  {
    var d := k.p.defs[h];
    ShapeOfDef(d);
    CoreBlockConvertible(k, h, d.body);
    assert ConvertibleStmt(d);
    RenameStmtKeepsAwaits(d);
    StmtBecomesSync(RenameStmt(d));
    SyncBlockOne(SyncOfDef(d));
  }

  lemma {:induction false} CoreExprConvertible<W>(k: Pairing<W>, h: Fn, e: Expr)
    requires CoreExpr(k, h, e)
    ensures ConvertibleExpr(e)
    decreases e, 1
  {
    match e
    case Name(_) =>
    case Constant(_) =>
    case Attribute(o, _) => CoreExprConvertible(k, h, o);
    case BinOp(l, _, r) => CoreExprConvertible(k, h, l); CoreExprConvertible(k, h, r);
    case Call(f, args) => CoreCalleeConvertible(k, h, false, f, args); CoreExprsConvertible(k, h, args);
    case Await(v) => CoreCalleeConvertible(k, h, true, v.func, v.args); CoreExprsConvertible(k, h, v.args);
  }

  lemma {:induction false} CoreCalleeConvertible<W>(k: Pairing<W>, h: Fn, isAsync: bool, f: Expr, args: seq<Expr>)
    requires CoreCallee(k, h, isAsync, f, args)
    ensures ConvertibleExpr(f)
    decreases f, 1
  {
    if f.Attribute? {
      CoreExprConvertible(k, h, f.object_);
    }
  }

  lemma {:induction false} CoreExprsConvertible<W>(k: Pairing<W>, h: Fn, es: seq<Expr>)
    requires CoreExprs(k, h, es)
    ensures ConvertibleExprs(es)
    decreases es, 0
  {
    if es != [] {
      CoreExprConvertible(k, h, es[0]);
      CoreExprsConvertible(k, h, es[1..]);
    }
  }

  lemma {:induction false} CoreStmtConvertible<W>(k: Pairing<W>, h: Fn, s: Stmt)
    requires CoreStmt(k, h, s)
    ensures ConvertibleStmt(s)
    decreases s, 1
  {
    match s
    case Pass =>
    case Comment(_) =>
    case ExprStmt(e) => CoreExprConvertible(k, h, e);
    case Assign(_, e) => CoreExprConvertible(k, h, e);
    case Return(e) => CoreExprConvertible(k, h, e);
    case If(t, b, o) => CoreExprConvertible(k, h, t); CoreBlockConvertible(k, h, b); CoreBlockConvertible(k, h, o);
    case While(t, b) => CoreExprConvertible(k, h, t); CoreBlockConvertible(k, h, b);
    case For(_, i, b, o) => CoreExprConvertible(k, h, i); CoreBlockConvertible(k, h, b); CoreBlockConvertible(k, h, o);
    case AsyncFor(_, i, b, o) =>
      CoreExprConvertible(k, h, i); CoreBlockConvertible(k, h, b); CoreBlockConvertible(k, h, o);
    case With(c, _, b) => CoreExprConvertible(k, h, c); CoreBlockConvertible(k, h, b);
    case AsyncWith(c, _, b) => CoreExprConvertible(k, h, c); CoreBlockConvertible(k, h, b);
  }

  lemma {:induction false} CoreBlockConvertible<W>(k: Pairing<W>, h: Fn, b: seq<Stmt>)
    requires CoreBlock(k, h, b)
    ensures ConvertibleBlock(b)
    decreases b, 0
  {
    if b != [] {
      CoreStmtConvertible(k, h, b[0]);
      CoreBlockConvertible(k, h, b[1..]);
    }
  }
}
