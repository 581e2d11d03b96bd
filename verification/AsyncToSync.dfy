/** scripts/build_sync_library.py, class AsyncToSync. The transformer changes nodes in place
    and returns replacements; some callers use what it returns and some ignore it, so every
    node has two outcomes: what its visit returns, and what the visited node itself becomes. */
module AsyncToSync {
  import opened PythonAst

  // ----- Expressions -----

  /** The node itself after its visit: its children are replaced by what their visits return,
      except below Await, where the child's visit is made and its result ignored. */
  function InPlaceExpr(e: Expr): Expr
    decreases e, 0
  {
    match e
    case Name(_) => e
    case Constant(_) => e
    case Attribute(o, a) => Attribute(VisitExpr(o), a)
    case Call(f, args) => Call(VisitExpr(f), VisitExprs(args))
    case BinOp(l, op, r) => BinOp(VisitExpr(l), op, VisitExpr(r))
    case Subscript(c, s) => Subscript(VisitExpr(c), VisitExpr(s))
    case Tuple(elts) => Tuple(VisitExprs(elts))
    case Comprehension(elt, t, iter, isAsync) => Comprehension(VisitExpr(elt), t, VisitExpr(iter), isAsync)
    case Await(v) => Await(InPlaceExpr(v))
  }

  /** What the visit returns: visit_Await hands out its child, as the child itself became. */
  function VisitExpr(e: Expr): Expr
    decreases e, 1
  {
    match e
    case Await(v) => InPlaceExpr(v)
    case _ => InPlaceExpr(e)
  }

  function VisitExprs(es: seq<Expr>): (vs: seq<Expr>)
    ensures |vs| == |es|
    decreases es, 0
  {
    if es == [] then [] else [VisitExpr(es[0])] + VisitExprs(es[1..])
  }

  // ----- Guards -----

  /** `if is_async():` */
  predicate IsAsyncCall(test: Expr) {
    test.Call? && test.func == Name("is_async")
  }

  /** `if True:  # ASYNC` or `if False:  # ASYNC` */
  predicate IsMarkedConstant(test: Expr, body: seq<Stmt>) {
    && test.Constant? && test.value.BoolLit?
    && body != [] && body[0].Comment? && "# ASYNC" <= body[0].text
  }

  predicate IsGuard(s: Stmt) {
    s.If? && (IsAsyncCall(s.test) || IsMarkedConstant(s.test, s.body))
  }

  /** The guard keeps its else branch, or its body without the marking comment. */
  predicate KeepsElse(s: Stmt)
    requires IsGuard(s)
  {
    IsAsyncCall(s.test) || s.test.value.b
  }

  // ----- Statements -----

  /** The statement itself after its visit. An async statement keeps its class here: its lists
      are shared with the node that replaces it, its single children are not. */
  function InPlaceStmt(s: Stmt): Stmt
    decreases s, 0
  {
    if IsGuard(s) then
      if KeepsElse(s) then If(s.test, s.body, InPlaceEach(s.orelse))
      else If(s.test, [s.body[0]] + InPlaceEach(s.body[1..]), s.orelse)
    else
      match s
      case Pass => s
      case Comment(_) => s
      case ExprStmt(v) => ExprStmt(VisitExpr(v))
      case Assign(t, v) => Assign(t, VisitExpr(v))
      case Return(v) => Return(VisitExpr(v))
      case If(t, b, o) => If(VisitExpr(t), VisitBlock(b), VisitBlock(o))
      case While(t, b) => While(VisitExpr(t), VisitBlock(b))
      case For(t, i, b, o) => For(t, VisitExpr(i), VisitBlock(b), VisitBlock(o))
      case AsyncFor(t, i, b, o) => AsyncFor(t, InPlaceExpr(i), VisitBlock(b), VisitBlock(o))
      case With(c, t, b) => With(VisitExpr(c), t, VisitBlock(b))
      case AsyncWith(c, t, b) => AsyncWith(VisitExpr(c), t, VisitBlock(b))
      case FunctionDef(n, ps, ds, b) => FunctionDef(n, ps, VisitExprs(ds), VisitBlock(b))
      case AsyncFunctionDef(n, ps, ds, b) => AsyncFunctionDef(n, ps, VisitExprs(ds), VisitBlock(b))
  }

  /** What the visit returns, as the list of statements that takes the statement's place. */
  function VisitStmt(s: Stmt): seq<Stmt>
    decreases s, 1
  {
    if IsGuard(s) then
      if KeepsElse(s) then InPlaceEach(s.orelse) else InPlaceEach(s.body[1..])
    else
      match s
      case AsyncFor(t, i, b, o) => [For(t, VisitExpr(i), VisitBlock(b), VisitBlock(o))]
      case AsyncWith(c, t, b) => [With(VisitExpr(c), t, VisitBlock(b))]
      case AsyncFunctionDef(n, ps, ds, b) => [FunctionDef(n, ps, VisitExprs(ds), VisitBlock(b))]
      case _ => [InPlaceStmt(s)]
  }

  /** A block whose statements are replaced by what their visits return. */
  function VisitBlock(b: seq<Stmt>): seq<Stmt>
    decreases b, 0
  {
    if b == [] then [] else VisitStmt(b[0]) + VisitBlock(b[1..])
  }

  /** Statements that are visited for their effect only. */
  function InPlaceEach(b: seq<Stmt>): (r: seq<Stmt>)
    ensures |r| == |b|
    decreases b, 0
  {
    if b == [] then [] else [InPlaceStmt(b[0])] + InPlaceEach(b[1..])
  }

  // ----- When nothing async is left -----

  /** No await stands directly under an await. */
  predicate ConvertibleExpr(e: Expr) {
    match e
    case Name(_) => true
    case Constant(_) => true
    case Attribute(o, _) => ConvertibleExpr(o)
    case Call(f, args) => ConvertibleExpr(f) && ConvertibleExprs(args)
    case BinOp(l, _, r) => ConvertibleExpr(l) && ConvertibleExpr(r)
    case Subscript(c, s) => ConvertibleExpr(c) && ConvertibleExpr(s)
    case Tuple(elts) => ConvertibleExprs(elts)
    case Comprehension(elt, _, iter, _) => ConvertibleExpr(elt) && ConvertibleExpr(iter)
    case Await(v) => !v.Await? && ConvertibleExpr(v)
  }

  predicate ConvertibleExprs(es: seq<Expr>) {
    es == [] || (ConvertibleExpr(es[0]) && ConvertibleExprs(es[1..]))
  }

  function KeptBranch(s: Stmt): seq<Stmt>
    requires IsGuard(s)
  {
    if KeepsElse(s) then s.orelse else s.body[1..]
  }

  function DroppedBranch(s: Stmt): seq<Stmt>
    requires IsGuard(s)
  {
    if KeepsElse(s) then s.body else s.orelse
  }

  /** Outside dropped branches no await stands directly under an await, and no guard keeps a
      branch that an async statement is directly in. A guard directly in a kept branch stays
      as it is, so it must have nothing async in what it would have dropped. */
  predicate ConvertibleStmt(s: Stmt)
    decreases s, 1
  {
    if IsGuard(s) then KeepableEach(KeptBranch(s))
    else
      match s
      case Pass => true
      case Comment(_) => true
      case ExprStmt(v) => ConvertibleExpr(v)
      case Assign(_, v) => ConvertibleExpr(v)
      case Return(v) => ConvertibleExpr(v)
      case If(t, b, o) => ConvertibleExpr(t) && ConvertibleBlock(b) && ConvertibleBlock(o)
      case While(t, b) => ConvertibleExpr(t) && ConvertibleBlock(b)
      case For(_, i, b, o) => ConvertibleExpr(i) && ConvertibleBlock(b) && ConvertibleBlock(o)
      case AsyncFor(_, i, b, o) => ConvertibleExpr(i) && ConvertibleBlock(b) && ConvertibleBlock(o)
      case With(c, _, b) => ConvertibleExpr(c) && ConvertibleBlock(b)
      case AsyncWith(c, _, b) => ConvertibleExpr(c) && ConvertibleBlock(b)
      case FunctionDef(_, _, ds, b) => ConvertibleExprs(ds) && ConvertibleBlock(b)
      case AsyncFunctionDef(_, _, ds, b) => ConvertibleExprs(ds) && ConvertibleBlock(b)
  }

  predicate ConvertibleBlock(b: seq<Stmt>)
    decreases b, 0
  {
    b == [] || (ConvertibleStmt(b[0]) && ConvertibleBlock(b[1..]))
  }

  predicate Keepable(s: Stmt)
    decreases s, 2
  {
    && !IsAsyncStmt(s)
    && (IsGuard(s) ==> SyncExpr(s.test) && SyncBlock(DroppedBranch(s)))
    && ConvertibleStmt(s)
  }

  predicate KeepableEach(b: seq<Stmt>)
    decreases b, 0
  {
    b == [] || (Keepable(b[0]) && KeepableEach(b[1..]))
  }

  // ----- Proof, along the tree -----

  lemma {:induction false} ExprBecomesSync(e: Expr)
    ensures SyncExpr(InPlaceExpr(e)) <==> !e.Await? && ConvertibleExpr(e)
    ensures SyncExpr(VisitExpr(e)) <==> ConvertibleExpr(e)
    decreases e, 1
  {
    match e
    case Name(_) =>
    case Constant(_) =>
    case Attribute(o, _) => ExprBecomesSync(o);
    case Call(f, args) => ExprBecomesSync(f); ExprsBecomeSync(args);
    case BinOp(l, _, r) => ExprBecomesSync(l); ExprBecomesSync(r);
    case Subscript(c, s) => ExprBecomesSync(c); ExprBecomesSync(s);
    case Tuple(elts) => ExprsBecomeSync(elts);
    case Comprehension(elt, _, iter, _) => ExprBecomesSync(elt); ExprBecomesSync(iter);
    case Await(v) => ExprBecomesSync(v);
  }

  lemma {:induction false} ExprsBecomeSync(es: seq<Expr>)
    ensures SyncExprs(VisitExprs(es)) <==> ConvertibleExprs(es)
    decreases es, 0
  {
    if es != [] {
      ExprBecomesSync(es[0]);
      ExprsBecomeSync(es[1..]);
      assert VisitExprs(es)[1..] == VisitExprs(es[1..]);
    }
  }

  lemma SyncBlockOne(s: Stmt)
    ensures SyncBlock([s]) <==> SyncStmt(s)
  {
  }

  lemma {:induction false} StmtBecomesSync(s: Stmt)
    ensures SyncBlock(VisitStmt(s)) <==> ConvertibleStmt(s)
    ensures SyncStmt(InPlaceStmt(s)) <==> Keepable(s)
    decreases s, 1
  {
    if IsGuard(s) {
      GuardBecomesSync(s);
    } else {
      PlainStmtBecomesSync(s);
    }
  }

  lemma {:induction false} GuardBecomesSync(s: Stmt)
    requires IsGuard(s)
    ensures SyncBlock(VisitStmt(s)) <==> ConvertibleStmt(s)
    ensures SyncStmt(InPlaceStmt(s)) <==> Keepable(s)
    decreases s, 0
  {
    EachBecomesSync(KeptBranch(s));
    var kept := InPlaceEach(KeptBranch(s));
    assert Keepable(s) <==> SyncExpr(s.test) && SyncBlock(DroppedBranch(s)) && KeepableEach(KeptBranch(s));
    if KeepsElse(s) {
      assert InPlaceStmt(s) == If(s.test, s.body, kept);
    } else {
      SyncBlockConcat([s.body[0]], kept);
      assert InPlaceStmt(s) == If(s.test, [s.body[0]] + kept, s.orelse);
    }
  }

  lemma {:induction false} PlainStmtBecomesSync(s: Stmt)
    requires !IsGuard(s)
    ensures SyncBlock(VisitStmt(s)) <==> ConvertibleStmt(s)
    ensures SyncStmt(InPlaceStmt(s)) <==> Keepable(s)
    decreases s, 0
  {
    SyncBlockOne(VisitStmt(s)[0]);
    if IsAsyncStmt(s) {
      AsyncStmtBecomesSync(s);
    } else if s.If? || s.While? || s.For? {
      BranchingBecomesSync(s);
    } else {
      match s
      case Pass =>
      case Comment(_) =>
      case ExprStmt(v) => ExprBecomesSync(v);
      case Assign(_, v) => ExprBecomesSync(v);
      case Return(v) => ExprBecomesSync(v);
      case With(c, _, b) => ExprBecomesSync(c); BlockBecomesSync(b);
      case FunctionDef(_, _, ds, b) => ExprsBecomeSync(ds); BlockBecomesSync(b);
    }
  }

  lemma {:induction false} BranchingBecomesSync(s: Stmt)
    requires !IsGuard(s) && (s.If? || s.While? || s.For?)
    ensures SyncStmt(VisitStmt(s)[0]) <==> ConvertibleStmt(s)
    decreases s, 0, 0
  {
    match s
    case If(t, b, o) => ExprBecomesSync(t); BlockBecomesSync(b); BlockBecomesSync(o);
    case While(t, b) => ExprBecomesSync(t); BlockBecomesSync(b);
    case For(_, i, b, o) => ExprBecomesSync(i); BlockBecomesSync(b); BlockBecomesSync(o);
  }

  lemma {:induction false} AsyncStmtBecomesSync(s: Stmt)
    requires IsAsyncStmt(s)
    ensures SyncStmt(VisitStmt(s)[0]) <==> ConvertibleStmt(s)
    decreases s, 0, 0
  {
    match s
    case AsyncFor(_, i, b, o) => ExprBecomesSync(i); BlockBecomesSync(b); BlockBecomesSync(o);
    case AsyncWith(c, _, b) => ExprBecomesSync(c); BlockBecomesSync(b);
    case AsyncFunctionDef(_, _, ds, b) => ExprsBecomeSync(ds); BlockBecomesSync(b);
  }

  /** The translated block has no async node left exactly when the block is convertible. */
  lemma {:induction false} BlockBecomesSync(b: seq<Stmt>)
    ensures SyncBlock(VisitBlock(b)) <==> ConvertibleBlock(b)
    decreases b, 0
  {
    if b != [] {
      StmtBecomesSync(b[0]);
      BlockBecomesSync(b[1..]);
      SyncBlockConcat(VisitStmt(b[0]), VisitBlock(b[1..]));
    }
  }

  lemma {:induction false} EachBecomesSync(b: seq<Stmt>)
    ensures SyncBlock(InPlaceEach(b)) <==> KeepableEach(b)
    decreases b, 0
  {
    if b != [] {
      StmtBecomesSync(b[0]);
      EachBecomesSync(b[1..]);
      assert InPlaceEach(b)[1..] == InPlaceEach(b[1..]);
    }
  }

  // ----- Sync code stays as it is -----

  lemma {:induction false} SyncExprIsFixed(e: Expr)
    requires SyncExpr(e)
    ensures InPlaceExpr(e) == e && VisitExpr(e) == e
    decreases e, 1
  {
    match e
    case Name(_) =>
    case Constant(_) =>
    case Attribute(o, _) => SyncExprIsFixed(o);
    case Call(f, args) => SyncExprIsFixed(f); SyncExprsAreFixed(args);
    case BinOp(l, _, r) => SyncExprIsFixed(l); SyncExprIsFixed(r);
    case Subscript(c, s) => SyncExprIsFixed(c); SyncExprIsFixed(s);
    case Tuple(elts) => SyncExprsAreFixed(elts);
    case Comprehension(elt, _, iter, _) => SyncExprIsFixed(elt); SyncExprIsFixed(iter);
  }

  lemma {:induction false} SyncExprsAreFixed(es: seq<Expr>)
    requires SyncExprs(es)
    ensures VisitExprs(es) == es
    decreases es, 0
  {
    if es != [] {
      SyncExprIsFixed(es[0]);
      SyncExprsAreFixed(es[1..]);
    }
  }

  /** No guard in the statement or anywhere below it. */
  predicate GuardFree(s: Stmt) {
    && !IsGuard(s)
    && match s
       case If(_, b, o) => GuardFreeBlock(b) && GuardFreeBlock(o)
       case While(_, b) => GuardFreeBlock(b)
       case For(_, _, b, o) => GuardFreeBlock(b) && GuardFreeBlock(o)
       case AsyncFor(_, _, b, o) => GuardFreeBlock(b) && GuardFreeBlock(o)
       case With(_, _, b) => GuardFreeBlock(b)
       case AsyncWith(_, _, b) => GuardFreeBlock(b)
       case FunctionDef(_, _, _, b) => GuardFreeBlock(b)
       case AsyncFunctionDef(_, _, _, b) => GuardFreeBlock(b)
       case _ => true
  }

  predicate GuardFreeBlock(b: seq<Stmt>) {
    b == [] || (GuardFree(b[0]) && GuardFreeBlock(b[1..]))
  }

  lemma {:induction false} SyncStmtIsFixed(s: Stmt)
    requires SyncStmt(s) && GuardFree(s)
    ensures InPlaceStmt(s) == s && VisitStmt(s) == [s]
    decreases s, 1
  {
    match s
    case Pass =>
    case Comment(_) =>
    case ExprStmt(v) => SyncExprIsFixed(v);
    case Assign(_, v) => SyncExprIsFixed(v);
    case Return(v) => SyncExprIsFixed(v);
    case If(t, b, o) => SyncExprIsFixed(t); SyncBlockIsFixed(b); SyncBlockIsFixed(o);
    case While(t, b) => SyncExprIsFixed(t); SyncBlockIsFixed(b);
    case For(_, i, b, o) => SyncExprIsFixed(i); SyncBlockIsFixed(b); SyncBlockIsFixed(o);
    case With(c, _, b) => SyncExprIsFixed(c); SyncBlockIsFixed(b);
    case FunctionDef(_, _, ds, b) => SyncExprsAreFixed(ds); SyncBlockIsFixed(b);
  }

  /** Code without async nodes and guards is left alone. */
  lemma {:induction false} SyncBlockIsFixed(b: seq<Stmt>)
    requires SyncBlock(b) && GuardFreeBlock(b)
    ensures VisitBlock(b) == b && InPlaceEach(b) == b
    decreases b, 0
  {
    if b != [] {
      SyncStmtIsFixed(b[0]);
      SyncBlockIsFixed(b[1..]);
    }
  }

  /** A guard whose kept branch is such code is replaced by exactly that branch. */
  lemma GuardBecomesKeptBranch(s: Stmt)
    requires IsGuard(s) && SyncBlock(KeptBranch(s)) && GuardFreeBlock(KeptBranch(s))
    ensures VisitStmt(s) == KeptBranch(s)
  {
    SyncBlockIsFixed(KeptBranch(s));
  }

  // ----- What stays async -----

  /** How many comprehensions are marked async. */
  function AsyncComprehensions(e: Expr): nat {
    match e
    case Name(_) => 0
    case Constant(_) => 0
    case Attribute(o, _) => AsyncComprehensions(o)
    case Call(f, args) => AsyncComprehensions(f) + AsyncComprehensionsIn(args)
    case BinOp(l, _, r) => AsyncComprehensions(l) + AsyncComprehensions(r)
    case Subscript(c, s) => AsyncComprehensions(c) + AsyncComprehensions(s)
    case Tuple(elts) => AsyncComprehensionsIn(elts)
    case Comprehension(elt, _, iter, isAsync) =>
      (if isAsync then 1 else 0) + AsyncComprehensions(elt) + AsyncComprehensions(iter)
    case Await(v) => AsyncComprehensions(v)
  }

  function AsyncComprehensionsIn(es: seq<Expr>): nat {
    if es == [] then 0 else AsyncComprehensions(es[0]) + AsyncComprehensionsIn(es[1..])
  }

  /** Awaits go, but every async comprehension stays as async as it was. */
  lemma {:induction false} AsyncComprehensionsSurvive(e: Expr)
    ensures AsyncComprehensions(VisitExpr(e)) == AsyncComprehensions(e)
    ensures AsyncComprehensions(InPlaceExpr(e)) == AsyncComprehensions(e)
    decreases e, 1
  {
    match e
    case Name(_) =>
    case Constant(_) =>
    case Attribute(o, _) => AsyncComprehensionsSurvive(o);
    case Call(f, args) => AsyncComprehensionsSurvive(f); AsyncComprehensionsInSurvive(args);
    case BinOp(l, _, r) => AsyncComprehensionsSurvive(l); AsyncComprehensionsSurvive(r);
    case Subscript(c, s) => AsyncComprehensionsSurvive(c); AsyncComprehensionsSurvive(s);
    case Tuple(elts) => AsyncComprehensionsInSurvive(elts);
    case Comprehension(elt, _, iter, _) => AsyncComprehensionsSurvive(elt); AsyncComprehensionsSurvive(iter);
    case Await(v) => AsyncComprehensionsSurvive(v);
  }

  lemma {:induction false} AsyncComprehensionsInSurvive(es: seq<Expr>)
    ensures AsyncComprehensionsIn(VisitExprs(es)) == AsyncComprehensionsIn(es)
    decreases es, 0
  {
    if es != [] {
      AsyncComprehensionsSurvive(es[0]);
      AsyncComprehensionsInSurvive(es[1..]);
      assert VisitExprs(es)[1..] == VisitExprs(es[1..]);
    }
  }
}
