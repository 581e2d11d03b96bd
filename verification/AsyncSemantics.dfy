/** What programs of the core language do, async or not: the meaning that the translator keeps.
    A call of an async function makes a coroutine and runs nothing; awaiting it runs the body.
    The program runs as one task, so that nothing happens between an await and its result. */
module AsyncSemantics {
  import opened PythonAst

  // ----- Functions, values and outcomes -----

  /** A function by its name, or a method by its class and name. */
  datatype Fn = Plain(name: string) | Method(class_: string, name: string)

  datatype Val =
    | NoneVal
    | BoolVal(b: bool)
    | IntVal(n: int)
    | StrVal(s: string)
    | Object(class_: string, id: int)
    | Coroutine(fn: Fn, args: seq<Val>)
    | StopIteration

  datatype Outcome<+T> =
    | Got(value: T)
    | Raised(exception: Val)
    | Misused        // a thing is not what it is used as: not callable, not awaitable, without the hook
    | OutOfFuel

  datatype Flow =
    | Next
    | Returned(value: Val)
    | Raises(exception: Val)
    | Stuck          // misused
    | Spent          // out of fuel

  // ----- Programs -----

  /** The functions that the program defines, and those of the libraries it is linked with,
      which see and change the world W; for these it says whether they are async. */
  datatype Program<!W> = Program(
    defs: map<Fn, Stmt>,
    linked: map<Fn, bool>,
    primitive: (Fn, seq<Val>, W) -> (Outcome<Val>, W),
    attributes: set<string>,
    attribute: (Val, string, W) -> Outcome<Val>,
    binary: (Val, string, Val) -> Outcome<Val>)

  predicate Known<W>(p: Program<W>, f: Fn) {
    f in p.defs || f in p.linked
  }

  predicate IsAsync<W>(p: Program<W>, f: Fn) {
    if f in p.defs then p.defs[f].AsyncFunctionDef? else f in p.linked && p.linked[f]
  }

  /** The methods that for and with statements call. */
  datatype Role = IterHook | NextHook | EnterHook | ExitHook

  function HookName(isAsync: bool, role: Role): string {
    match role
    case IterHook => if isAsync then "__aiter__" else "__iter__"
    case NextHook => if isAsync then "__anext__" else "__next__"
    case EnterHook => if isAsync then "__aenter__" else "__enter__"
    case ExitHook => if isAsync then "__aexit__" else "__exit__"
  }

  function HookOf(class_: string, isAsync: bool, role: Role): Fn {
    Method(class_, HookName(isAsync, role))
  }

  /** An async statement awaits its hooks, except __aiter__. */
  predicate HookIsAsync(isAsync: bool, role: Role) {
    isAsync && role != IterHook
  }

  /** The object has the hook, and it is async or sync as it must be. */
  predicate HasHook<W>(p: Program<W>, isAsync: bool, o: Val, role: Role) {
    && o.Object?
    && Known(p, HookOf(o.class_, isAsync, role))
    && IsAsync(p, HookOf(o.class_, isAsync, role)) == HookIsAsync(isAsync, role)
  }

  function Truth(v: Val): bool {
    match v
    case NoneVal => false
    case BoolVal(b) => b
    case IntVal(n) => n != 0
    case StrVal(s) => s != ""
    case _ => true
  }

  function LiteralVal(l: Literal): Val {
    match l
    case NoneLit => NoneVal
    case BoolLit(b) => BoolVal(b)
    case IntLit(n) => IntVal(n)
    case StrLit(s) => StrVal(s)
  }

  type Env = map<string, Val>

  // ----- Expressions -----

  /** Calls of named functions and of methods, awaits, names, attributes, constants and binary
      operators; everything else is outside the core language. */
  function EvalExpr<W>(p: Program<W>, e: Expr, env: Env, w: W, fuel: nat): (Outcome<Val>, W)
    decreases fuel, 1, e, 1
  {
    match e
    case Name(x) => (if x in env then Got(env[x]) else Raised(StrVal("NameError")), w)
    case Constant(l) => (Got(LiteralVal(l)), w)
    case BinOp(l, op, r) =>
      var (lv, w1) := EvalExpr(p, l, env, w, fuel);
      if !lv.Got? then (lv, w1)
      else
        var (rv, w2) := EvalExpr(p, r, env, w1, fuel);
        if !rv.Got? then (rv, w2) else (p.binary(lv.value, op, rv.value), w2)
    case Attribute(o, a) =>
      var (ov, w1) := EvalExpr(p, o, env, w, fuel);
      if !ov.Got? then (ov, w1)
      else (if a in p.attributes then p.attribute(ov.value, a, w1) else Misused, w1)
    case Call(f, args) =>
      var (t, w1) := EvalTarget(p, f, env, w, fuel);
      if !t.Got? then (Failed(t), w1)
      else
        var (vs, w2) := EvalExprs(p, args, env, w1, fuel);
        if !vs.Got? then (Failed(vs), w2)
        else if IsAsync(p, t.value.fn) then (Got(Coroutine(t.value.fn, t.value.self + vs.value)), w2)
        else RunNow(p, t.value.fn, t.value.self + vs.value, w2, fuel)
    case Await(v) =>
      var (c, w1) := EvalExpr(p, v, env, w, fuel);
      if !c.Got? then (c, w1)
      else if !c.value.Coroutine? then (Misused, w1)
      else RunNow(p, c.value.fn, c.value.args, w1, fuel)
    case _ => (Misused, w)
  }

  /** The function that is called, with the object in front whose method it is. */
  datatype Target = Target(fn: Fn, self: seq<Val>)

  function EvalTarget<W>(p: Program<W>, f: Expr, env: Env, w: W, fuel: nat): (Outcome<Target>, W)
    decreases fuel, 1, f, 2
  {
    match f
    case Name(x) => (if Known(p, Plain(x)) then Got(Target(Plain(x), [])) else Misused, w)
    case Attribute(o, a) =>
      var (ov, w1) := EvalExpr(p, o, env, w, fuel);
      if !ov.Got? then (Failed(ov), w1)
      else if !ov.value.Object? || !Known(p, Method(ov.value.class_, a)) then (Misused, w1)
      else (Got(Target(Method(ov.value.class_, a), [ov.value])), w1)
    case _ => (Misused, w)
  }

  function Failed<S, T>(o: Outcome<S>): Outcome<T>
    requires !o.Got?
  {
    match o
    case Raised(x) => Raised(x)
    case Misused => Misused
    case OutOfFuel => OutOfFuel
  }

  function EvalExprs<W>(p: Program<W>, es: seq<Expr>, env: Env, w: W, fuel: nat): (Outcome<seq<Val>>, W)
    decreases fuel, 1, es, 0
  {
    if es == [] then (Got([]), w)
    else
      var (v, w1) := EvalExpr(p, es[0], env, w, fuel);
      if !v.Got? then (Failed(v), w1)
      else
        var (rest, w2) := EvalExprs(p, es[1..], env, w1, fuel);
        (if rest.Got? then Got([v.value] + rest.value) else rest, w2)
  }

  // ----- Calls -----

  function RunNow<W>(p: Program<W>, f: Fn, args: seq<Val>, w: W, fuel: nat): (Outcome<Val>, W)
    decreases fuel, 0
  {
    if fuel == 0 then (OutOfFuel, w) else Invoke(p, f, args, w, fuel - 1)
  }

  function Bind(params: seq<string>, args: seq<Val>): Env
    requires |params| == |args|
  {
    if params == [] then map[]
    else
      var n := |params| - 1;
      Bind(params[..n], args[..n])[params[n] := args[n]]
  }

  function AsResult(flow: Flow): Outcome<Val> {
    match flow
    case Next => Got(NoneVal)
    case Returned(v) => Got(v)
    case Raises(x) => Raised(x)
    case Stuck => Misused
    case Spent => OutOfFuel
  }

  predicate IsDefinition(d: Stmt) {
    d.FunctionDef? || d.AsyncFunctionDef?
  }

  /** Runs the body of a function, or a function of the linked libraries. */
  function Invoke<W>(p: Program<W>, f: Fn, args: seq<Val>, w: W, fuel: nat): (Outcome<Val>, W)
    decreases fuel, 3
  {
    if f in p.defs then
      if !IsDefinition(p.defs[f]) then (Misused, w)
      else if |p.defs[f].params| != |args| then (Raised(StrVal("TypeError")), w)
      else
        var (flow, _, w1) := ExecBlock(p, p.defs[f].body, Bind(p.defs[f].params, args), w, fuel);
        (AsResult(flow), w1)
    else if f in p.linked then p.primitive(f, args, w)
    else (Misused, w)
  }

  /** Calls a hook, and awaits it if the statement awaits that hook. */
  function CallHook<W>(p: Program<W>, isAsync: bool, o: Val, role: Role, args: seq<Val>, w: W, fuel: nat)
    : (Outcome<Val>, W)
    decreases fuel, 4
  {
    if HasHook(p, isAsync, o, role) then Invoke(p, HookOf(o.class_, isAsync, role), args, w, fuel) else (Misused, w)
  }

  // ----- Statements -----

  function AsFlow(o: Outcome<Val>): Flow
    requires !o.Got?
  {
    match o
    case Raised(x) => Raises(x)
    case Misused => Stuck
    case OutOfFuel => Spent
  }

  function ExecBlock<W>(p: Program<W>, b: seq<Stmt>, env: Env, w: W, fuel: nat): (Flow, Env, W)
    decreases fuel, 2, b, 0
  {
    if b == [] then (Next, env, w)
    else
      var (flow, env1, w1) := ExecStmt(p, b[0], env, w, fuel);
      if flow.Next? then ExecBlock(p, b[1..], env1, w1, fuel) else (flow, env1, w1)
  }

  function ExecStmt<W>(p: Program<W>, s: Stmt, env: Env, w: W, fuel: nat): (Flow, Env, W)
    decreases fuel, 2, s, 3
  {
    match s
    case Pass => (Next, env, w)
    case Comment(_) => (Next, env, w)
    case ExprStmt(e) =>
      var (v, w1) := EvalExpr(p, e, env, w, fuel);
      (if v.Got? then Next else AsFlow(v), env, w1)
    case Assign(x, e) =>
      var (v, w1) := EvalExpr(p, e, env, w, fuel);
      if v.Got? then (Next, env[x := v.value], w1) else (AsFlow(v), env, w1)
    case Return(e) =>
      var (v, w1) := EvalExpr(p, e, env, w, fuel);
      (if v.Got? then Returned(v.value) else AsFlow(v), env, w1)
    case If(t, b, o) =>
      var (v, w1) := EvalExpr(p, t, env, w, fuel);
      if !v.Got? then (AsFlow(v), env, w1)
      else ExecBlock(p, if Truth(v.value) then b else o, env, w1, fuel)
    case While(t, b) => ExecWhile(p, t, b, env, w, fuel)
    case For(x, i, b, o) => ExecFor(p, false, x, i, b, o, env, w, fuel)
    case AsyncFor(x, i, b, o) => ExecFor(p, true, x, i, b, o, env, w, fuel)
    case With(c, x, b) => ExecWith(p, false, c, x, b, env, w, fuel)
    case AsyncWith(c, x, b) => ExecWith(p, true, c, x, b, env, w, fuel)
    case _ => (Stuck, env, w)
  }

  function ExecWhile<W>(p: Program<W>, t: Expr, b: seq<Stmt>, env: Env, w: W, fuel: nat): (Flow, Env, W)
    decreases fuel, 2, b, 2
  {
    var (v, w1) := EvalExpr(p, t, env, w, fuel);
    if !v.Got? then (AsFlow(v), env, w1)
    else if !Truth(v.value) then (Next, env, w1)
    else
      var (flow, env2, w2) := ExecBlock(p, b, env, w1, fuel);
      if !flow.Next? then (flow, env2, w2)
      else if fuel == 0 then (Spent, env2, w2)
      else ExecWhile(p, t, b, env2, w2, fuel - 1)
  }

  /** The iterable is asked for its iterator, and that for the next element until it answers
      StopIteration, after which the else branch runs. */
  function ExecFor<W>(p: Program<W>, isAsync: bool, x: string, i: Expr, b: seq<Stmt>, o: seq<Stmt>,
                      env: Env, w: W, fuel: nat): (Flow, Env, W)
    decreases fuel, 2, b, 2
  {
    var (it, w1) := EvalExpr(p, i, env, w, fuel);
    if !it.Got? then (AsFlow(it), env, w1)
    else if fuel == 0 then (Spent, env, w1)
    else IterateOver(p, isAsync, x, it.value, b, o, env, w1, fuel - 1)
  }

  function IterateOver<W>(p: Program<W>, isAsync: bool, x: string, it: Val, b: seq<Stmt>, o: seq<Stmt>,
                          env: Env, w: W, fuel: nat): (Flow, Env, W)
    decreases fuel, 6
  {
    var (cursor, w1) := CallHook(p, isAsync, it, IterHook, [it], w, fuel);
    if !cursor.Got? then (AsFlow(cursor), env, w1)
    else Iterate(p, isAsync, x, cursor.value, b, o, env, w1, fuel)
  }

  function Iterate<W>(p: Program<W>, isAsync: bool, x: string, it: Val, b: seq<Stmt>, o: seq<Stmt>,
                      env: Env, w: W, fuel: nat): (Flow, Env, W)
    decreases fuel, 5
  {
    var (v, w1) := CallHook(p, isAsync, it, NextHook, [it], w, fuel);
    if !v.Got? then (AsFlow(v), env, w1)
    else if v.value.StopIteration? then ExecBlock(p, o, env, w1, fuel)
    else
      var (flow, env2, w2) := ExecBlock(p, b, env[x := v.value], w1, fuel);
      if !flow.Next? then (flow, env2, w2)
      else if fuel == 0 then (Spent, env2, w2)
      else Iterate(p, isAsync, x, it, b, o, env2, w2, fuel - 1)
  }

  /** Enter, body, exit; both hooks are looked up first. The exit hook runs however the body
      ends, hears of an exception and swallows it by a true answer. A run that is stuck or
      spent is not followed any further. */
  function ExecWith<W>(p: Program<W>, isAsync: bool, c: Expr, x: string, b: seq<Stmt>, env: Env, w: W, fuel: nat)
    : (Flow, Env, W)
    decreases fuel, 2, b, 2
  {
    var (m, w1) := EvalExpr(p, c, env, w, fuel);
    if !m.Got? then (AsFlow(m), env, w1)
    else if fuel == 0 then (Spent, env, w1)
    else EnterWith(p, isAsync, m.value, x, b, env, w1, fuel)
  }

  function EnterWith<W>(p: Program<W>, isAsync: bool, m: Val, x: string, b: seq<Stmt>, env: Env, w: W, fuel: nat)
    : (Flow, Env, W)
    requires fuel > 0
    decreases fuel, 2, b, 1
  {
    if !HasHook(p, isAsync, m, ExitHook) then (Stuck, env, w)
    else
      var (entered, w1) := CallHook(p, isAsync, m, EnterHook, [m], w, fuel - 1);
      if !entered.Got? then (AsFlow(entered), env, w1)
      else
        var (flow, env2, w2) := ExecBlock(p, b, env[x := entered.value], w1, fuel);
        LeaveWith(p, isAsync, m, flow, env2, w2, fuel - 1)
  }

  /** What the exit hook is told. */
  function Told(flow: Flow): Val {
    if flow.Raises? then flow.exception else NoneVal
  }

  function LeaveWith<W>(p: Program<W>, isAsync: bool, m: Val, flow: Flow, env: Env, w: W, fuel: nat): (Flow, Env, W)
    decreases fuel, 5
  {
    if flow.Stuck? || flow.Spent? then (flow, env, w)
    else
      var (left, w1) := CallHook(p, isAsync, m, ExitHook, [m, Told(flow)], w, fuel);
      if !left.Got? then (AsFlow(left), env, w1)
      else (if flow.Raises? && Truth(left.value) then Next else flow, env, w1)
  }
}
