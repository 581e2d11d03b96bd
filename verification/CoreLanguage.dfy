/** The programs that can be made sync by taking every await away and renaming every name. What
    a name becomes is a parameter here. */
module CoreLanguage {
  import opened PythonAst
  import opened AsyncToSync
  import opened AsyncSemantics

  type Renaming = string -> string

  // ----- The sync form -----

  function FormOf(rename: Renaming, e: Expr): Expr {
    match e
    case Name(x) => Name(rename(x))
    case Attribute(o, a) => Attribute(FormOf(rename, o), rename(a))
    case Call(f, args) => Expr.Call(FormOf(rename, f), FormOfEach(rename, args))
    case BinOp(l, op, r) => BinOp(FormOf(rename, l), op, FormOf(rename, r))
    case Await(v) => FormOf(rename, v)
    case _ => e
  }

  function FormOfEach(rename: Renaming, es: seq<Expr>): seq<Expr> {
    if es == [] then [] else [FormOf(rename, es[0])] + FormOfEach(rename, es[1..])
  }

  function FormOfStmt(rename: Renaming, s: Stmt): Stmt
    decreases s, 1
  {
    match s
    case ExprStmt(e) => ExprStmt(FormOf(rename, e))
    case Assign(x, e) => Assign(rename(x), FormOf(rename, e))
    case Return(e) => Return(FormOf(rename, e))
    case If(e, b, o) => If(FormOf(rename, e), FormOfBlock(rename, b), FormOfBlock(rename, o))
    case While(e, b) => While(FormOf(rename, e), FormOfBlock(rename, b))
    case For(x, i, b, o) => For(rename(x), FormOf(rename, i), FormOfBlock(rename, b), FormOfBlock(rename, o))
    case AsyncFor(x, i, b, o) => For(rename(x), FormOf(rename, i), FormOfBlock(rename, b), FormOfBlock(rename, o))
    case With(c, x, b) => With(FormOf(rename, c), rename(x), FormOfBlock(rename, b))
    case AsyncWith(c, x, b) => With(FormOf(rename, c), rename(x), FormOfBlock(rename, b))
    case _ => s
  }

  function FormOfBlock(rename: Renaming, b: seq<Stmt>): seq<Stmt>
    decreases b, 0
  {
    if b == [] then [] else [FormOfStmt(rename, b[0])] + FormOfBlock(rename, b[1..])
  }

  // ----- Classes of objects -----

  type Classes = iset<string>

  /** For every variable of a function, every result, attribute and operator, and for exceptions:
      the classes of the objects that they may be. */
  datatype Typing = Typing(
    variables: Fn -> map<string, Classes>,
    results: Fn -> Classes,
    attributes: string -> Classes,
    operators: string -> Classes,
    exceptions: Classes)

  predicate Fits(v: Val, cs: Classes) {
    v.Object? ==> v.class_ in cs
  }

  /** The variable x of h may hold objects of the classes. */
  ghost predicate Holds(t: Typing, h: Fn, x: string, cs: Classes) {
    x in t.variables(h) && cs <= t.variables(h)[x]
  }

  /** What methods of this name return, called on objects of the given classes. */
  ghost function ResultsOf(t: Typing, cs: Classes, name: string): Classes {
    iset c, r | c in cs && r in t.results(Method(c, name)) :: r
  }

  /** What an expression in the body of h may evaluate to. */
  ghost function ClassesOf(t: Typing, h: Fn, e: Expr): Classes {
    match e
    case Name(x) => if x in t.variables(h) then t.variables(h)[x] else iset{}
    case BinOp(_, op, _) => t.operators(op)
    case Attribute(_, a) => t.attributes(a)
    case Call(Name(f), _) => t.results(Plain(f))
    case Call(Attribute(o, a), _) => ResultsOf(t, ClassesOf(t, h, o), a)
    case Await(v) => ClassesOf(t, h, v)
    case _ => iset{}
  }

  ghost predicate OutcomeFits(t: Typing, o: Outcome<Val>, cs: Classes) {
    (o.Got? ==> Fits(o.value, cs)) && (o.Raised? ==> Fits(o.exception, t.exceptions))
  }

  // ----- A program and its translation -----

  /** A program p and its translation q, the classes of the objects in p, and how names change: in
      the program text and in the libraries it is linked with. When `strict`, for and with
      statements must be of the kind that the hooks they meet are. */
  datatype Pairing<!W> = Pairing(
    p: Program<W>, q: Program<W>, t: Typing, strict: bool, rename: Renaming, counterpart: Renaming)

  /** The name that a function has once the program is translated: async definitions are renamed,
      sync ones keep their names. */
  function NewName<W>(k: Pairing<W>, f: Fn): Fn {
    if f !in k.p.defs then f.(name := k.counterpart(f.name))
    else if k.p.defs[f].AsyncFunctionDef? then f.(name := k.rename(f.name))
    else f
  }

  ghost predicate SameFunction<W(!new)>(k: Pairing<W>, f: Fn, g: Fn) {
    forall args, w :: k.q.primitive(g, args, w) == k.p.primitive(f, args, w)
  }

  ghost predicate SameAttribute<W(!new)>(k: Pairing<W>, a: string) {
    forall v, w :: k.q.attribute(v, k.rename(a), w) == k.p.attribute(v, a, w)
  }

  /** g is the sync counterpart of a linked function. */
  ghost predicate IsCounterpartIn<W>(k: Pairing<W>, g: Fn) {
    g in k.q.linked && !k.q.linked[g] && exists f :: f in k.p.linked && f !in k.p.defs && NewName(k, f) == g
  }

  /** The translation is linked with sync counterparts of what the program is linked with: nothing
      in them is async, and what they do is the same. */
  ghost predicate LinkedAlike<W(!new)>(k: Pairing<W>) {
    && (forall f | f in k.p.linked && f !in k.p.defs ::
      NewName(k, f) in k.q.linked && SameFunction(k, f, NewName(k, f)))
    && (forall g {:trigger IsCounterpartIn(k, g)} | g in k.q.linked :: IsCounterpartIn(k, g))
    && (forall a | a in k.p.attributes :: k.rename(a) in k.q.attributes && SameAttribute(k, a))
    && k.q.binary == k.p.binary
  }

  /** A method is called with an object of its class in front. */
  predicate OnItsClass(f: Fn, args: seq<Val>) {
    f.Method? ==> args != [] && args[0].Object? && args[0].class_ == f.class_
  }

  /** The linked functions, attributes and operators keep to the typing. */
  ghost predicate LibrariesTyped<W(!new)>(k: Pairing<W>) {
    && (forall f, args, w | f in k.p.linked && OnItsClass(f, args) ::
      OutcomeFits(k.t, k.p.primitive(f, args, w).0, k.t.results(f)))
    && (forall v, a, w :: OutcomeFits(k.t, k.p.attribute(v, a, w), k.t.attributes(a)))
    && (forall l, op, r :: OutcomeFits(k.t, k.p.binary(l, op, r), k.t.operators(op)))
  }

  // ----- The core language -----

  /** g means in the translated program what f means in the original: it is the new name of f,
      and of no other function. When `strict`, it is also unknown if f is. */
  ghost predicate Becomes<W>(k: Pairing<W>, f: Fn, g: Fn) {
    && (Known(k.p, f) ==> NewName(k, f) == g)
    && (Known(k.p, f) || k.strict ==> forall f' | Known(k.p, f') && NewName(k, f') == g :: f' == f)
  }

  /** The i-th parameter of f may be given objects of the classes. */
  ghost predicate Accepts<W>(k: Pairing<W>, f: Fn, i: nat, cs: Classes) {
    f in k.p.defs && IsDefinition(k.p.defs[f]) && i < |k.p.defs[f].params| ==>
      Holds(k.t, f, k.p.defs[f].params[i], cs)
  }

  /** A function that is called is async or sync as it must be, and may be given the arguments. */
  ghost predicate CallFits<W>(k: Pairing<W>, h: Fn, isAsync: bool, f: Fn, g: Fn, self: seq<Classes>, args: seq<Expr>) {
    && Becomes(k, f, g)
    && (Known(k.p, f) ==>
      && IsAsync(k.p, f) == isAsync
      && (forall i | 0 <= i < |self| :: Accepts(k, f, i, self[i]))
      && (forall i | 0 <= i < |args| :: Accepts(k, f, |self| + i, ClassesOf(k.t, h, args[i]))))
  }

  /** The same of the method a of objects of the class c. */
  ghost predicate MethodFits<W>(k: Pairing<W>, h: Fn, isAsync: bool, c: string, a: string, args: seq<Expr>) {
    CallFits(k, h, isAsync, Method(c, a), Method(c, k.rename(a)), [iset{c}], args)
  }

  ghost predicate CoreCallee<W>(k: Pairing<W>, h: Fn, isAsync: bool, f: Expr, args: seq<Expr>)
    decreases f
  {
    match f
    case Name(x) => CallFits(k, h, isAsync, Plain(x), Plain(k.rename(x)), [], args)
    case Attribute(o, a) =>
      && CoreExpr(k, h, o)
      && forall c {:trigger MethodFits(k, h, isAsync, c, a, args)} | c in ClassesOf(k.t, h, o) ::
        MethodFits(k, h, isAsync, c, a, args)
    case _ => false
  }

  /** In the body of h: every call of an async function or method is awaited where it stands, and
      nothing else is. */
  ghost predicate CoreExpr<W>(k: Pairing<W>, h: Fn, e: Expr)
    decreases e
  {
    match e
    case Name(x) => x in k.t.variables(h)
    case Constant(_) => true
    case Attribute(o, a) => CoreExpr(k, h, o) && a in k.p.attributes
    case BinOp(l, _, r) => CoreExpr(k, h, l) && CoreExpr(k, h, r)
    case Call(f, args) => CoreCallee(k, h, false, f, args) && CoreExprs(k, h, args)
    case Await(Call(f, args)) => CoreCallee(k, h, true, f, args) && CoreExprs(k, h, args)
    case _ => false
  }

  ghost predicate CoreExprs<W>(k: Pairing<W>, h: Fn, es: seq<Expr>)
    decreases es
  {
    es == [] || (CoreExpr(k, h, es[0]) && CoreExprs(k, h, es[1..]))
  }

  /** What a class offers as a hook of an async or sync statement is what it offers, translated,
      as the hook of the sync statement. When `strict`, it is async or sync as it must be. */
  ghost predicate HookFits<W>(k: Pairing<W>, isAsync: bool, c: string, role: Role, more: seq<Classes>) {
    var f, args := HookOf(c, isAsync, role), [iset{c}] + more;
    && Becomes(k, f, HookOf(c, false, role))
    && (k.strict && Known(k.p, f) ==> IsAsync(k.p, f) == HookIsAsync(isAsync, role))
    && (Known(k.p, f) ==> forall i | 0 <= i < |args| :: Accepts(k, f, i, args[i]))
  }

  ghost predicate HooksFit<W>(k: Pairing<W>, isAsync: bool, cs: Classes, role: Role, more: seq<Classes>) {
    forall c {:trigger HookFits(k, isAsync, c, role, more)} | c in cs :: HookFits(k, isAsync, c, role, more)
  }

  /** Iterating over objects of the classes, with elements in the variable x of h. */
  ghost predicate IteratesInto<W>(k: Pairing<W>, h: Fn, isAsync: bool, cs: Classes, x: string) {
    var iterators := ResultsOf(k.t, cs, HookName(isAsync, IterHook));
    && HooksFit(k, isAsync, cs, IterHook, [])
    && HooksFit(k, isAsync, iterators, NextHook, [])
    && Holds(k.t, h, x, ResultsOf(k.t, iterators, HookName(isAsync, NextHook)))
  }

  /** Entering and leaving objects of the classes, with what entering returns in x. */
  ghost predicate EntersInto<W>(k: Pairing<W>, h: Fn, isAsync: bool, cs: Classes, x: string) {
    && HooksFit(k, isAsync, cs, EnterHook, [])
    && HooksFit(k, isAsync, cs, ExitHook, [k.t.exceptions])
    && Holds(k.t, h, x, ResultsOf(k.t, cs, HookName(isAsync, EnterHook)))
  }

  ghost predicate CoreFor<W>(k: Pairing<W>, h: Fn, isAsync: bool, x: string, i: Expr) {
    CoreExpr(k, h, i) && IteratesInto(k, h, isAsync, ClassesOf(k.t, h, i), x)
  }

  ghost predicate CoreWith<W>(k: Pairing<W>, h: Fn, isAsync: bool, c: Expr, x: string) {
    CoreExpr(k, h, c) && EntersInto(k, h, isAsync, ClassesOf(k.t, h, c), x)
  }

  /** No guards, no nested definitions. */
  ghost predicate CoreStmt<W>(k: Pairing<W>, h: Fn, s: Stmt) {
    && !IsGuard(s)
    && match s
       case Pass => true
       case Comment(_) => true
       case ExprStmt(e) => CoreExpr(k, h, e)
       case Assign(x, e) => CoreExpr(k, h, e) && Holds(k.t, h, x, ClassesOf(k.t, h, e))
       case Return(e) => CoreExpr(k, h, e) && ClassesOf(k.t, h, e) <= k.t.results(h)
       case If(e, b, o) => CoreExpr(k, h, e) && CoreBlock(k, h, b) && CoreBlock(k, h, o)
       case While(e, b) => CoreExpr(k, h, e) && CoreBlock(k, h, b)
       case For(x, i, b, o) => CoreFor(k, h, false, x, i) && CoreBlock(k, h, b) && CoreBlock(k, h, o)
       case AsyncFor(x, i, b, o) => CoreFor(k, h, true, x, i) && CoreBlock(k, h, b) && CoreBlock(k, h, o)
       case With(c, x, b) => CoreWith(k, h, false, c, x) && CoreBlock(k, h, b)
       case AsyncWith(c, x, b) => CoreWith(k, h, true, c, x) && CoreBlock(k, h, b)
       case _ => false
  }

  ghost predicate CoreBlock<W>(k: Pairing<W>, h: Fn, b: seq<Stmt>) {
    b == [] || (CoreStmt(k, h, b[0]) && CoreBlock(k, h, b[1..]))
  }

  ghost predicate StayDistinct(rename: Renaming, names: set<string>) {
    forall x, y | x in names && y in names && rename(x) == rename(y) :: x == y
  }

  /** No two variables are renamed to one, and the parameters of a sync definition, which keep
      their names, bear none that would be renamed in its body. */
  ghost predicate CoreDef<W>(k: Pairing<W>, h: Fn)
    requires h in k.p.defs
  {
    var d := k.p.defs[h];
    && IsDefinition(d) && d.decorators == []
    && StayDistinct(k.rename, k.t.variables(h).Keys)
    && (forall x | x in d.params :: x in k.t.variables(h) && (d.FunctionDef? ==> k.rename(x) == x))
    && CoreBlock(k, h, d.body)
  }

  ghost predicate CoreProgram<W(!new)>(k: Pairing<W>) {
    LinkedAlike(k) && LibrariesTyped(k) && forall h | h in k.p.defs :: CoreDef(k, h)
  }
}
