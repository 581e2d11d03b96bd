/** scripts/build_sync_library.py, async_to_sync: renamed first, then made sync. */
module SyncPipeline {
  import opened PythonAst
  import opened AsyncToSync
  import opened RenameAsyncToSync
  import opened RenameStatements

  function SyncOf(e: Expr): Expr {
    VisitExpr(Rename(e))
  }

  function SyncOfEach(es: seq<Expr>): seq<Expr> {
    VisitExprs(RenameEach(es))
  }

  /** What takes the place of a statement. */
  function SyncOfStmt(s: Stmt): seq<Stmt> {
    VisitStmt(RenameStmt(s))
  }

  function SyncOfBlock(b: seq<Stmt>): seq<Stmt> {
    VisitBlock(RenameBlock(b))
  }

  // ----- No mapped name is left -----

  /** No name, attribute or loop variable is one that the renaming maps. */
  predicate Settled(e: Expr) {
    match e
    case Name(id) => id !in NAMES
    case Constant(_) => true
    case Attribute(o, a) => Settled(o) && a !in NAMES
    case Call(f, args) => Settled(f) && SettledEach(args)
    case BinOp(l, _, r) => Settled(l) && Settled(r)
    case Subscript(c, s) => Settled(c) && Settled(s)
    case Tuple(elts) => SettledEach(elts)
    case Comprehension(elt, t, iter, _) => Settled(elt) && t !in NAMES && Settled(iter)
    case Await(v) => Settled(v)
  }

  predicate SettledEach(es: seq<Expr>) {
    es == [] || (Settled(es[0]) && SettledEach(es[1..]))
  }

  lemma SettledThree(x: Expr, y: Expr, z: Expr)
    ensures SettledEach([x, y, z]) <==> Settled(x) && Settled(y) && Settled(z)
  {
    assert [x, y, z][1..] == [y, z] && [y, z][1..] == [z] && [z][1..] == [];
    assert SettledEach([z]) <==> Settled(z);
    assert SettledEach([y, z]) <==> Settled(y) && SettledEach([z]);
  }

  lemma {:induction false} RenamedIsSettled(e: Expr)
    ensures Settled(Rename(e))
    decreases e, 1
  {
    match e
    case Name(id) => LookupIsIdempotent(id);
    case Constant(_) =>
    case Attribute(o, a) => RenamedIsSettled(o); LookupIsIdempotent(a);
    case Call(f, args) => RenamedIsSettled(f); RenamedEachIsSettled(args);
    case BinOp(l, _, r) => RenamedIsSettled(l); RenamedIsSettled(r);
    case Subscript(c, s) =>
      if IsAsyncGenerator(e) {
        RenamedGeneratorIsSettled(e);
      } else {
        RenamedIsSettled(c);
        RenamedIsSettled(s);
      }
    case Tuple(elts) => RenamedEachIsSettled(elts);
    case Comprehension(elt, t, iter, _) => RenamedIsSettled(elt); RenamedIsSettled(iter); LookupIsIdempotent(t);
    case Await(v) => RenamedIsSettled(v);
  }

  lemma {:induction false} RenamedGeneratorIsSettled(e: Expr)
    requires IsAsyncGenerator(e)
    ensures Settled(Rename(e))
    decreases e, 0
  {
    var x, y := e.slice.elts[0], e.slice.elts[1];
    RenamedIsSettled(x);
    RenamedIsSettled(y);
    GeneratorGetsOneArgument(e);
    SettledThree(Rename(x), Rename(y), Rename(y));
    GeneratorName();
    LookupIsIdempotent("AsyncGenerator");
  }

  lemma {:induction false} RenamedEachIsSettled(es: seq<Expr>)
    ensures SettledEach(RenameEach(es))
    decreases es, 0
  {
    if es != [] {
      RenamedIsSettled(es[0]);
      RenamedEachIsSettled(es[1..]);
      assert RenameEach(es)[1..] == RenameEach(es[1..]);
    }
  }

  lemma {:induction false} SettledIsFixed(e: Expr)
    requires Settled(e)
    ensures Rename(e) == e
    decreases e, 1
  {
    match e
    case Name(_) =>
    case Constant(_) =>
    case Attribute(o, _) => SettledIsFixed(o);
    case Call(f, args) => SettledIsFixed(f); SettledEachIsFixed(args);
    case BinOp(l, _, r) => SettledIsFixed(l); SettledIsFixed(r);
    case Subscript(c, s) =>
      MappedNameIsMapped();
      SettledIsFixed(c);
      SettledIsFixed(s);
    case Tuple(elts) => SettledEachIsFixed(elts);
    case Comprehension(elt, _, iter, _) => SettledIsFixed(elt); SettledIsFixed(iter);
    case Await(v) => SettledIsFixed(v);
  }

  lemma MappedNameIsMapped()
    ensures "AsyncGenerator" in NAMES
  {
    assert "AsyncGenerator" in NAMES_4;
  }

  lemma {:induction false} SettledEachIsFixed(es: seq<Expr>)
    requires SettledEach(es)
    ensures RenameEach(es) == es
    decreases es, 0
  {
    if es != [] {
      SettledIsFixed(es[0]);
      SettledEachIsFixed(es[1..]);
    }
  }

  /** Taking awaits away brings no mapped name back. */
  lemma {:induction false} VisitKeepsSettled(e: Expr)
    requires Settled(e)
    ensures Settled(VisitExpr(e)) && Settled(InPlaceExpr(e))
    decreases e, 1
  {
    match e
    case Name(_) =>
    case Constant(_) =>
    case Attribute(o, _) => VisitKeepsSettled(o);
    case Call(f, args) => VisitKeepsSettled(f); VisitEachKeepsSettled(args);
    case BinOp(l, _, r) => VisitKeepsSettled(l); VisitKeepsSettled(r);
    case Subscript(c, s) => VisitKeepsSettled(c); VisitKeepsSettled(s);
    case Tuple(elts) => VisitEachKeepsSettled(elts);
    case Comprehension(elt, _, iter, _) => VisitKeepsSettled(elt); VisitKeepsSettled(iter);
    case Await(v) => VisitKeepsSettled(v);
  }

  lemma {:induction false} VisitEachKeepsSettled(es: seq<Expr>)
    requires SettledEach(es)
    ensures SettledEach(VisitExprs(es))
    decreases es, 0
  {
    if es != [] {
      VisitKeepsSettled(es[0]);
      VisitEachKeepsSettled(es[1..]);
      assert VisitExprs(es)[1..] == VisitExprs(es[1..]);
    }
  }

  // ----- Awaits -----

  function Awaits(e: Expr): nat {
    match e
    case Name(_) => 0
    case Constant(_) => 0
    case Attribute(o, _) => Awaits(o)
    case Call(f, args) => Awaits(f) + AwaitsIn(args)
    case BinOp(l, _, r) => Awaits(l) + Awaits(r)
    case Subscript(c, s) => Awaits(c) + Awaits(s)
    case Tuple(elts) => AwaitsIn(elts)
    case Comprehension(elt, _, iter, _) => Awaits(elt) + Awaits(iter)
    case Await(v) => 1 + Awaits(v)
  }

  function AwaitsIn(es: seq<Expr>): nat {
    if es == [] then 0 else Awaits(es[0]) + AwaitsIn(es[1..])
  }

  /** A visit takes at least one await away, if there is one. */
  lemma {:induction false} VisitDropsAwaits(e: Expr)
    ensures Awaits(InPlaceExpr(e)) <= Awaits(e)
    ensures if Awaits(e) == 0 then VisitExpr(e) == e else Awaits(VisitExpr(e)) < Awaits(e)
    decreases e, 1
  {
    match e
    case Name(_) =>
    case Constant(_) =>
    case Attribute(o, _) => VisitDropsAwaits(o);
    case Call(f, args) => VisitDropsAwaits(f); VisitsDropAwaits(args);
    case BinOp(l, _, r) => VisitDropsAwaits(l); VisitDropsAwaits(r);
    case Subscript(c, s) => VisitDropsAwaits(c); VisitDropsAwaits(s);
    case Tuple(elts) => VisitsDropAwaits(elts);
    case Comprehension(elt, _, iter, _) => VisitDropsAwaits(elt); VisitDropsAwaits(iter);
    case Await(v) => VisitDropsAwaits(v);
  }

  lemma {:induction false} VisitsDropAwaits(es: seq<Expr>)
    ensures if AwaitsIn(es) == 0 then VisitExprs(es) == es else AwaitsIn(VisitExprs(es)) < AwaitsIn(es)
    decreases es, 0
  {
    if es != [] {
      VisitDropsAwaits(es[0]);
      VisitsDropAwaits(es[1..]);
      assert VisitExprs(es)[1..] == VisitExprs(es[1..]);
    }
  }

  lemma {:induction false} SyncMeansNoAwaits(e: Expr)
    ensures SyncExpr(e) <==> Awaits(e) == 0
    decreases e, 1
  {
    match e
    case Name(_) =>
    case Constant(_) =>
    case Attribute(o, _) => SyncMeansNoAwaits(o);
    case Call(f, args) => SyncMeansNoAwaits(f); SyncEachMeansNoAwaits(args);
    case BinOp(l, _, r) => SyncMeansNoAwaits(l); SyncMeansNoAwaits(r);
    case Subscript(c, s) => SyncMeansNoAwaits(c); SyncMeansNoAwaits(s);
    case Tuple(elts) => SyncEachMeansNoAwaits(elts);
    case Comprehension(elt, _, iter, _) => SyncMeansNoAwaits(elt); SyncMeansNoAwaits(iter);
    case Await(_) =>
  }

  lemma {:induction false} SyncEachMeansNoAwaits(es: seq<Expr>)
    ensures SyncExprs(es) <==> AwaitsIn(es) == 0
    decreases es, 0
  {
    if es != [] {
      SyncMeansNoAwaits(es[0]);
      SyncEachMeansNoAwaits(es[1..]);
    }
  }

  // ----- Renaming leaves awaits where they are -----

  lemma ConvertibleThree(x: Expr, y: Expr, z: Expr)
    ensures ConvertibleExprs([x, y, z]) <==> ConvertibleExpr(x) && ConvertibleExpr(y) && ConvertibleExpr(z)
    ensures SyncExprs([x, y, z]) <==> SyncExpr(x) && SyncExpr(y) && SyncExpr(z)
  {
    assert [x, y, z][1..] == [y, z] && [y, z][1..] == [z] && [z][1..] == [];
    assert ConvertibleExprs([z]) <==> ConvertibleExpr(z);
    assert ConvertibleExprs([y, z]) <==> ConvertibleExpr(y) && ConvertibleExprs([z]);
    assert SyncExprs([z]) <==> SyncExpr(z);
    assert SyncExprs([y, z]) <==> SyncExpr(y) && SyncExprs([z]);
  }

  lemma ConvertibleTwo(x: Expr, y: Expr)
    ensures ConvertibleExprs([x, y]) <==> ConvertibleExpr(x) && ConvertibleExpr(y)
    ensures SyncExprs([x, y]) <==> SyncExpr(x) && SyncExpr(y)
  {
    assert [x, y][1..] == [y] && [y][1..] == [];
    assert ConvertibleExprs([y]) <==> ConvertibleExpr(y);
    assert SyncExprs([y]) <==> SyncExpr(y);
  }

  lemma {:induction false} RenameKeepsAwaits(e: Expr)
    ensures Rename(e).Await? <==> e.Await?
    ensures ConvertibleExpr(Rename(e)) <==> ConvertibleExpr(e)
    ensures SyncExpr(Rename(e)) <==> SyncExpr(e)
    decreases e, 1
  {
    match e
    case Name(_) =>
    case Constant(_) =>
    case Attribute(o, _) => RenameKeepsAwaits(o);
    case Call(f, args) => RenameKeepsAwaits(f); RenameEachKeepsAwaits(args);
    case BinOp(l, _, r) => RenameKeepsAwaits(l); RenameKeepsAwaits(r);
    case Subscript(c, s) =>
      if IsAsyncGenerator(e) {
        RenamedGeneratorKeepsAwaits(e);
      } else {
        RenameKeepsAwaits(c);
        RenameKeepsAwaits(s);
      }
    case Tuple(elts) => RenameEachKeepsAwaits(elts);
    case Comprehension(elt, _, iter, _) => RenameKeepsAwaits(elt); RenameKeepsAwaits(iter);
    case Await(v) => RenameKeepsAwaits(v);
  }

  lemma {:induction false} RenamedGeneratorKeepsAwaits(e: Expr)
    requires IsAsyncGenerator(e)
    ensures Rename(e).Subscript? && (ConvertibleExpr(Rename(e)) <==> ConvertibleExpr(e))
    ensures SyncExpr(Rename(e)) <==> SyncExpr(e)
    decreases e, 0
  {
    var x, y := e.slice.elts[0], e.slice.elts[1];
    assert e.slice.elts == [x, y];
    RenameKeepsAwaits(x);
    RenameKeepsAwaits(y);
    GeneratorGetsOneArgument(e);
    ConvertibleTwo(x, y);
    ConvertibleThree(Rename(x), Rename(y), Rename(y));
  }

  lemma {:induction false} RenameEachKeepsAwaits(es: seq<Expr>)
    ensures ConvertibleExprs(RenameEach(es)) <==> ConvertibleExprs(es)
    ensures SyncExprs(RenameEach(es)) <==> SyncExprs(es)
    decreases es, 0
  {
    if es != [] {
      RenameKeepsAwaits(es[0]);
      RenameEachKeepsAwaits(es[1..]);
      assert RenameEach(es)[1..] == RenameEach(es[1..]);
    }
  }

  // ----- The whole translation -----

  /** No mapped name and no AsyncGenerator[X, Y] is left in any translated expression; no await
      is left exactly when none stood directly under another in the original. */
  lemma TranslatedExpressions(e: Expr)
    ensures Settled(SyncOf(e)) && Rename(SyncOf(e)) == SyncOf(e)
    ensures SyncExpr(SyncOf(e)) <==> ConvertibleExpr(e)
  {
    RenamedIsSettled(e);
    VisitKeepsSettled(Rename(e));
    SettledIsFixed(SyncOf(e));
    RenameKeepsAwaits(e);
    ExprBecomesSync(Rename(e));
  }

  /** Translating a translated expression again changes nothing, exactly when the original has
      no await directly under an await. */
  lemma TranslatingIsIdempotentIff(e: Expr)
    ensures SyncOf(SyncOf(e)) == SyncOf(e) <==> ConvertibleExpr(e)
  {
    TranslatedExpressions(e);
    SyncMeansNoAwaits(SyncOf(e));
    VisitDropsAwaits(SyncOf(e));
  }

  // ----- Statements -----

  lemma {:induction false} RenameStmtKeepsAwaits(s: Stmt)
    ensures IsAsyncStmt(RenameStmt(s)) <==> IsAsyncStmt(s)
    ensures SyncStmt(RenameStmt(s)) <==> SyncStmt(s)
    ensures ConvertibleStmt(RenameStmt(s)) <==> ConvertibleStmt(s)
    ensures Keepable(RenameStmt(s)) <==> Keepable(s)
    decreases s, 2
  {
    RenamingKeepsGuards(s);
    if s.If? {
      RenameKeepsAwaits(s.test);
      RenameBlockKeepsAwaits(s.body);
      RenameBlockKeepsAwaits(s.orelse);
      if IsGuard(s) {
        RenameGuardKeepsAwaits(s);
      }
    } else if s.FunctionDef? || s.AsyncFunctionDef? {
      DefinitionKeepsAwaits(s);
    } else if s.For? || s.AsyncFor? {
      LoopKeepsAwaits(s);
    } else {
      match s
      case Pass =>
      case Comment(_) =>
      case ExprStmt(v) => RenameKeepsAwaits(v);
      case Assign(_, v) => RenameKeepsAwaits(v);
      case Return(v) => RenameKeepsAwaits(v);
      case While(t, b) => RenameKeepsAwaits(t); RenameBlockKeepsAwaits(b);
      case With(c, _, b) => RenameKeepsAwaits(c); RenameBlockKeepsAwaits(b);
      case AsyncWith(c, _, b) => RenameKeepsAwaits(c); RenameBlockKeepsAwaits(b);
    }
  }

  lemma {:induction false} RenameGuardKeepsAwaits(s: Stmt)
    requires IsGuard(s)
    ensures KeepableEach(RenameBlock(KeptBranch(s))) <==> KeepableEach(KeptBranch(s))
    ensures SyncBlock(RenameBlock(DroppedBranch(s))) <==> SyncBlock(DroppedBranch(s))
    decreases s, 1
  {
    RenameBlockKeepsAwaits(KeptBranch(s));
    RenameBlockKeepsAwaits(DroppedBranch(s));
  }

  lemma {:induction false} LoopKeepsAwaits(s: Stmt)
    requires s.For? || s.AsyncFor?
    ensures SyncStmt(RenameStmt(s)) <==> SyncStmt(s)
    ensures ConvertibleStmt(RenameStmt(s)) <==> ConvertibleStmt(s)
    decreases s, 0
  {
    RenameKeepsAwaits(s.iter);
    RenameBlockKeepsAwaits(s.body);
    RenameBlockKeepsAwaits(s.orelse);
  }

  lemma {:induction false} DefinitionKeepsAwaits(s: Stmt)
    requires s.FunctionDef? || s.AsyncFunctionDef?
    ensures SyncStmt(RenameStmt(s)) <==> SyncStmt(s)
    ensures ConvertibleStmt(RenameStmt(s)) <==> ConvertibleStmt(s)
    decreases s, 0
  {
    RenameEachKeepsAwaits(s.decorators);
    RenameBlockKeepsAwaits(s.body);
    DocstringHasNoAwaits(RenameBlock(s.body));
  }

  lemma DocstringHasNoAwaits(b: seq<Stmt>)
    ensures SyncBlock(FixDocstring(b)) <==> SyncBlock(b)
    ensures ConvertibleBlock(FixDocstring(b)) <==> ConvertibleBlock(b)
  {
  }

  lemma {:induction false} RenameBlockKeepsAwaits(b: seq<Stmt>)
    ensures SyncBlock(RenameBlock(b)) <==> SyncBlock(b)
    ensures ConvertibleBlock(RenameBlock(b)) <==> ConvertibleBlock(b)
    ensures KeepableEach(RenameBlock(b)) <==> KeepableEach(b)
    decreases b, 0
  {
    if b != [] {
      RenameStmtKeepsAwaits(b[0]);
      RenameBlockKeepsAwaits(b[1..]);
      assert RenameBlock(b)[1..] == RenameBlock(b[1..]);
    }
  }

  /** Nothing async is left in a translated block exactly when the original is convertible. */
  lemma TranslatedBlocks(b: seq<Stmt>)
    ensures SyncBlock(SyncOfBlock(b)) <==> ConvertibleBlock(b)
  {
    RenameBlockKeepsAwaits(b);
    BlockBecomesSync(RenameBlock(b));
  }
}
