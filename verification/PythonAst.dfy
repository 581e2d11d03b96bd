/** The part of Python's syntax trees that the async-to-sync translator is modelled on. */
module PythonAst {
  import opened Prelude

  datatype Literal = NoneLit | BoolLit(b: bool) | IntLit(n: int) | StrLit(s: string)

  datatype Expr =
    | Name(id: string)
    | Constant(value: Literal)
    | Attribute(object_: Expr, attr: string)
    | Call(func: Expr, args: seq<Expr>)
    | BinOp(left: Expr, op: string, right: Expr)
    | Subscript(container: Expr, slice: Expr)
    | Tuple(elts: seq<Expr>)
    | Comprehension(elt: Expr, target: string, iter: Expr, isAsync: bool)
    | Await(awaited: Expr)

  /** `import name as asname` inside a from-import. */
  datatype Alias = Alias(name: string, asname: Option<string>)

  /** With and for statements have one item and one loop variable each. */
  datatype Stmt =
    | Pass
    | Comment(text: string)
    | ExprStmt(value: Expr)
    | Assign(target: string, value: Expr)
    | Return(value: Expr)
    | If(test: Expr, body: seq<Stmt>, orelse: seq<Stmt>)
    | While(test: Expr, body: seq<Stmt>)
    | For(target: string, iter: Expr, body: seq<Stmt>, orelse: seq<Stmt>)
    | AsyncFor(target: string, iter: Expr, body: seq<Stmt>, orelse: seq<Stmt>)
    | With(context: Expr, target: string, body: seq<Stmt>)
    | AsyncWith(context: Expr, target: string, body: seq<Stmt>)
    | FunctionDef(name: string, params: seq<string>, decorators: seq<Expr>, body: seq<Stmt>)
    | AsyncFunctionDef(name: string, params: seq<string>, decorators: seq<Expr>, body: seq<Stmt>)

  // ----- Trees without async nodes -----

  /** No Await node in the expression. */
  predicate SyncExpr(e: Expr) {
    match e
    case Name(_) => true
    case Constant(_) => true
    case Attribute(o, _) => SyncExpr(o)
    case Call(f, args) => SyncExpr(f) && SyncExprs(args)
    case BinOp(l, _, r) => SyncExpr(l) && SyncExpr(r)
    case Subscript(c, s) => SyncExpr(c) && SyncExpr(s)
    case Tuple(elts) => SyncExprs(elts)
    case Comprehension(elt, _, iter, _) => SyncExpr(elt) && SyncExpr(iter)
    case Await(_) => false
  }

  predicate SyncExprs(es: seq<Expr>) {
    es == [] || (SyncExpr(es[0]) && SyncExprs(es[1..]))
  }

  predicate IsAsyncStmt(s: Stmt) {
    s.AsyncFor? || s.AsyncWith? || s.AsyncFunctionDef?
  }

  /** No Await, AsyncFor, AsyncWith or AsyncFunctionDef node in the statement. */
  predicate SyncStmt(s: Stmt) {
    match s
    case Pass => true
    case Comment(_) => true
    case ExprStmt(v) => SyncExpr(v)
    case Assign(_, v) => SyncExpr(v)
    case Return(v) => SyncExpr(v)
    case If(t, b, o) => SyncExpr(t) && SyncBlock(b) && SyncBlock(o)
    case While(t, b) => SyncExpr(t) && SyncBlock(b)
    case For(_, i, b, o) => SyncExpr(i) && SyncBlock(b) && SyncBlock(o)
    case With(c, _, b) => SyncExpr(c) && SyncBlock(b)
    case FunctionDef(_, _, ds, b) => SyncExprs(ds) && SyncBlock(b)
    case AsyncFor(_, _, _, _) => false
    case AsyncWith(_, _, _) => false
    case AsyncFunctionDef(_, _, _, _) => false
  }

  predicate SyncBlock(b: seq<Stmt>) {
    b == [] || (SyncStmt(b[0]) && SyncBlock(b[1..]))
  }

  lemma {:induction false} SyncBlockConcat(a: seq<Stmt>, b: seq<Stmt>)
    ensures SyncBlock(a + b) <==> SyncBlock(a) && SyncBlock(b)
  {
    if a == [] {
      assert a + b == b;
    } else {
      assert (a + b)[1..] == a[1..] + b;
      SyncBlockConcat(a[1..], b);
    }
  }
}
