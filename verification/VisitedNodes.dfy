/** What the visits of AsyncToSync leave of a tree, node by node: every node stays where it was, but
    for the awaits, the branches that guards drop, and the kind of async statements. */
module VisitedNodes {
  import opened PythonAst
  import opened AsyncToSync
  import opened SyntaxNodes

  // ----- Expressions -----

  /** The nodes of an expression without those awaits that do not stand directly under an await;
      `under` says whether the expression itself does. */
  function NodesLeft(e: Expr, under: bool): seq<Node>
    decreases e, 1
  {
    match e
    case Name(id) => [NameNode(id)]
    case Constant(l) => [ConstantNode(l)]
    case Attribute(o, a) => [AttributeNode(a)] + NodesLeft(o, false)
    case Call(f, args) => [CallNode] + NodesLeft(f, false) + AllLeft(args)
    case BinOp(l, op, r) => [BinOpNode(op)] + NodesLeft(l, false) + NodesLeft(r, false)
    case Subscript(c, s) => [SubscriptNode] + NodesLeft(c, false) + NodesLeft(s, false)
    case Tuple(elts) => [TupleNode] + AllLeft(elts)
    case Comprehension(elt, t, iter, isAsync) =>
      [ComprehensionNode(t, isAsync)] + NodesLeft(elt, false) + NodesLeft(iter, false)
    case Await(v) => (if under then [AwaitNode] else []) + NodesLeft(v, true)
  }

  function AllLeft(es: seq<Expr>): seq<Node>
    decreases es, 0
  {
    if es == [] then [End] else NodesLeft(es[0], false) + AllLeft(es[1..])
  }

  /** A visit takes away the outermost await of every chain of awaits, and nothing else. */
  lemma {:induction false} VisitLeavesNodes(e: Expr)
    ensures Nodes(VisitExpr(e)) == NodesLeft(e, false)
    ensures Nodes(InPlaceExpr(e)) == NodesLeft(e, true)
    decreases e, 1
  {
    match e
    case Name(_) =>
    case Constant(_) =>
    case Attribute(o, _) => VisitLeavesNodes(o);
    case Call(f, args) => VisitLeavesNodes(f); VisitsLeaveNodes(args);
    case BinOp(l, _, r) => VisitLeavesNodes(l); VisitLeavesNodes(r);
    case Subscript(c, s) => VisitLeavesNodes(c); VisitLeavesNodes(s);
    case Tuple(elts) => VisitsLeaveNodes(elts);
    case Comprehension(elt, _, iter, _) => VisitLeavesNodes(elt); VisitLeavesNodes(iter);
    case Await(v) => VisitLeavesNodes(v);
  }

  lemma {:induction false} VisitsLeaveNodes(es: seq<Expr>)
    ensures NodesOfAll(VisitExprs(es)) == AllLeft(es)
    decreases es, 0
  {
    if es != [] {
      VisitLeavesNodes(es[0]);
      VisitsLeaveNodes(es[1..]);
      assert VisitExprs(es)[1..] == VisitExprs(es[1..]);
    }
  }

  /** The sequence without awaits, and with async statements told from sync ones no more. */
  function Sync(ns: seq<Node>): seq<Node> {
    if ns == [] then []
    else
      (match ns[0]
       case AwaitNode => []
       case ForNode(t, _) => [ForNode(t, false)]
       case WithNode(t, _) => [WithNode(t, false)]
       case DefNode(n, ps, _) => [DefNode(n, ps, false)]
       case _ => [ns[0]]) + Sync(ns[1..])
  }

  lemma {:induction false} SyncConcat(a: seq<Node>, b: seq<Node>)
    ensures Sync(a + b) == Sync(a) + Sync(b)
  {
    if a == [] {
      assert a + b == b;
    } else {
      assert (a + b)[1..] == a[1..] + b;
      SyncConcat(a[1..], b);
    }
  }

  lemma SyncOfTwo(n: Node, a: seq<Node>, b: seq<Node>)
    ensures Sync([n] + a + b) == Sync([n]) + Sync(a) + Sync(b)
    ensures Sync([n] + a) == Sync([n]) + Sync(a)
  {
    SyncConcat([n] + a, b);
    SyncConcat([n], a);
  }

  lemma {:induction false} SyncNodesLeft(e: Expr, under: bool)
    ensures Sync(NodesLeft(e, under)) == Sync(Nodes(e))
    decreases |Nodes(e)|, 1
  {
    match e
    case Name(_) =>
    case Constant(_) =>
    case Attribute(o, a) => SyncOne(AttributeNode(a), o);
    case Call(f, args) =>
      SyncNodesLeft(f, false);
      SyncAllLeft(args);
      SyncOfTwo(CallNode, NodesLeft(f, false), AllLeft(args));
      SyncOfTwo(CallNode, Nodes(f), NodesOfAll(args));
    case BinOp(l, op, r) => SyncTwo(BinOpNode(op), l, r);
    case Subscript(c, s) => SyncTwo(SubscriptNode, c, s);
    case Tuple(elts) =>
      SyncAllLeft(elts);
      SyncOfTwo(TupleNode, AllLeft(elts), []);
      SyncOfTwo(TupleNode, NodesOfAll(elts), []);
    case Comprehension(elt, t, iter, isAsync) => SyncTwo(ComprehensionNode(t, isAsync), elt, iter);
    case Await(v) =>
      SyncNodesLeft(v, true);
      SyncOfTwo(AwaitNode, NodesLeft(v, true), []);
      SyncOfTwo(AwaitNode, Nodes(v), []);
      assert [] + NodesLeft(v, true) == NodesLeft(v, true);
  }

  lemma {:induction false} SyncOne(n: Node, x: Expr)
    ensures Sync([n] + NodesLeft(x, false)) == Sync([n] + Nodes(x))
    decreases |Nodes(x)|, 2
  {
    SyncNodesLeft(x, false);
    SyncOfTwo(n, NodesLeft(x, false), []);
    SyncOfTwo(n, Nodes(x), []);
  }

  lemma {:induction false} SyncTwo(n: Node, x: Expr, y: Expr)
    ensures Sync([n] + NodesLeft(x, false) + NodesLeft(y, false)) == Sync([n] + Nodes(x) + Nodes(y))
    decreases |Nodes(x)| + |Nodes(y)| + 1, 0
  {
    SyncNodesLeft(x, false);
    SyncNodesLeft(y, false);
    SyncOfTwo(n, NodesLeft(x, false), NodesLeft(y, false));
    SyncOfTwo(n, Nodes(x), Nodes(y));
  }

  lemma {:induction false} SyncAllLeft(es: seq<Expr>)
    ensures Sync(AllLeft(es)) == Sync(NodesOfAll(es))
    decreases |NodesOfAll(es)|, 0
  {
    if es != [] {
      SyncNodesLeft(es[0], false);
      SyncAllLeft(es[1..]);
      SyncConcat(NodesLeft(es[0], false), AllLeft(es[1..]));
      SyncConcat(Nodes(es[0]), NodesOfAll(es[1..]));
    }
  }

  /** A visited expression has the nodes of the original, awaits apart, each where it was. */
  lemma VisitKeepsNodes(e: Expr)
    ensures Sync(Nodes(VisitExpr(e))) == Sync(Nodes(e))
  {
    VisitLeavesNodes(e);
    SyncNodesLeft(e, false);
  }

  // ----- Guards -----

  /** `if is_async(...)` by its first nodes. */
  predicate AsksWhetherAsync(ns: seq<Node>) {
    |ns| >= 3 && ns[0] == IfNode && ns[1] == CallNode && ns[2] == NameNode("is_async")
  }

  /** `if b:  # ASYNC...` by its first nodes. */
  predicate IsMarked(ns: seq<Node>, b: bool) {
    && |ns| >= 3 && ns[0] == IfNode && ns[1] == ConstantNode(BoolLit(b))
    && ns[2].CommentNode? && |ns[2].text| >= 7 && ns[2].text[..7] == "# ASYNC"
  }

  /** Which statements are guards, and which branch each keeps, told by the first three nodes. */
  lemma GuardNodes(s: Stmt)
    ensures IsGuard(s) <==>
      AsksWhetherAsync(StmtNodes(s)) || IsMarked(StmtNodes(s), true) || IsMarked(StmtNodes(s), false)
    ensures IsGuard(s) ==> (KeepsElse(s) <==> !IsMarked(StmtNodes(s), false))
  {
    if s.If? {
      var ns := StmtNodes(s);
      assert ns[1] == Nodes(s.test)[0];
      if s.test.Call? {
        assert Nodes(s.test)[1] == Nodes(s.test.func)[0];
        assert ns[2] == Nodes(s.test)[1];
      } else if s.test.Constant? {
        assert Nodes(s.test) == [ConstantNode(s.test.value)];
        assert ns[2] == BlockNodes(s.body)[0];
        if s.body != [] {
          assert ns[2] == Head(s.body[0]);
        }
        if s.body != [] && s.body[0].Comment? {
          MarkingComment(s.body[0].text);
        }
      }
    }
  }

  lemma MarkingComment(text: string)
    ensures "# ASYNC" <= text <==> |text| >= 7 && text[..7] == "# ASYNC"
  {
  }

  // ----- Statements -----

  /** The nodes of the statements one after the other, without the mark at the end. */
  function EachNodes(b: seq<Stmt>): seq<Node> {
    if b == [] then [] else StmtNodes(b[0]) + EachNodes(b[1..])
  }

  lemma {:induction false} BlockIsEach(b: seq<Stmt>)
    ensures BlockNodes(b) == EachNodes(b) + [End]
  {
    if b != [] {
      BlockIsEach(b[1..]);
    }
  }

  lemma {:induction false} EachConcat(a: seq<Stmt>, b: seq<Stmt>)
    ensures EachNodes(a + b) == EachNodes(a) + EachNodes(b)
  {
    if a == [] {
      assert a + b == b;
    } else {
      assert (a + b)[1..] == a[1..] + b;
      EachConcat(a[1..], b);
    }
  }

  lemma EachOfOne(s: Stmt)
    ensures EachNodes([s]) == StmtNodes(s)
  {
    assert [s][1..] == [];
  }

  /** The node of a statement after a visit: returned, it is of the sync kind; in place, it is as
      it was. */
  function LeftHead(s: Stmt, returned: bool): Node {
    match s
    case AsyncFor(t, _, _, _) => ForNode(t, !returned)
    case AsyncWith(_, t, _) => WithNode(t, !returned)
    case AsyncFunctionDef(n, ps, _, _) => DefNode(n, ps, !returned)
    case _ => Head(s)
  }

  /** The nodes that a visit leaves of a statement, in what it returns or in the statement itself.
      A returned guard is its kept branch, whose statements have been visited in place and are not
      asked for what their visits return. A guard itself keeps its test and the dropped branch as
      they are. An async for that stays is left with an iterable that was visited in place. */
  function LeftStmt(s: Stmt, returned: bool): seq<Node>
    decreases s, 1
  {
    if IsGuard(s) then
      if returned then EachLeft(KeptBranch(s), false)
      else if KeepsElse(s) then
        [IfNode] + (Nodes(s.test) + BlockNodes(s.body) + (EachLeft(s.orelse, false) + [End]))
      else
        [IfNode] + (Nodes(s.test) + (StmtNodes(s.body[0]) + (EachLeft(s.body[1..], false) + [End]))
                    + BlockNodes(s.orelse))
    else
      [LeftHead(s, returned)] +
      match s
      case Pass => []
      case Comment(_) => []
      case ExprStmt(v) => NodesLeft(v, false)
      case Assign(_, v) => NodesLeft(v, false)
      case Return(v) => NodesLeft(v, false)
      case If(t, b, o) => NodesLeft(t, false) + BlockLeft(b) + BlockLeft(o)
      case While(t, b) => NodesLeft(t, false) + BlockLeft(b)
      case For(_, i, b, o) => NodesLeft(i, false) + BlockLeft(b) + BlockLeft(o)
      case AsyncFor(_, i, b, o) => NodesLeft(i, !returned) + BlockLeft(b) + BlockLeft(o)
      case With(c, _, b) => NodesLeft(c, false) + BlockLeft(b)
      case AsyncWith(c, _, b) => NodesLeft(c, false) + BlockLeft(b)
      case FunctionDef(_, _, ds, b) => AllLeft(ds) + BlockLeft(b)
      case AsyncFunctionDef(_, _, ds, b) => AllLeft(ds) + BlockLeft(b)
  }

  function EachLeft(b: seq<Stmt>, returned: bool): seq<Node>
    decreases b, 0
  {
    if b == [] then [] else LeftStmt(b[0], returned) + EachLeft(b[1..], returned)
  }

  function BlockLeft(b: seq<Stmt>): seq<Node>
    decreases b, 1
  {
    EachLeft(b, true) + [End]
  }

  lemma {:induction false} VisitLeavesStmt(s: Stmt)
    ensures EachNodes(VisitStmt(s)) == LeftStmt(s, true)
    ensures StmtNodes(InPlaceStmt(s)) == LeftStmt(s, false)
    decreases s, 1
  {
    if IsGuard(s) {
      VisitLeavesGuard(s);
    } else {
      EachOfOne(VisitStmt(s)[0]);
      match s {
        case Pass =>
        case Comment(_) =>
        case ExprStmt(v) => VisitLeavesNodes(v);
        case Assign(_, v) => VisitLeavesNodes(v);
        case Return(v) => VisitLeavesNodes(v);
        case If(_, _, _) => VisitLeavesIf(s);
        case While(_, _) => VisitLeavesWhile(s);
        case For(_, _, _, _) => VisitLeavesFor(s);
        case AsyncFor(_, _, _, _) => VisitLeavesAsyncFor(s);
        case With(_, _, _) => VisitLeavesWith(s);
        case AsyncWith(_, _, _) => VisitLeavesAsyncWith(s);
        case FunctionDef(_, _, _, _) => VisitLeavesDef(s);
        case AsyncFunctionDef(_, _, _, _) => VisitLeavesAsyncDef(s);
      }
    }
  }

  lemma {:induction false} VisitLeavesGuard(s: Stmt)
    requires IsGuard(s)
    ensures EachNodes(VisitStmt(s)) == LeftStmt(s, true)
    ensures StmtNodes(InPlaceStmt(s)) == LeftStmt(s, false)
    decreases s, 0
  {
    var kept := InPlaceEach(KeptBranch(s));
    VisitLeavesEach(KeptBranch(s));
    BlockIsEach(kept);
    if !KeepsElse(s) {
      var b := [s.body[0]] + kept;
      assert b[1..] == kept;
      assert BlockNodes(b) == StmtNodes(s.body[0]) + BlockNodes(kept);
    }
  }

  lemma {:induction false} VisitLeavesIf(s: Stmt)
    requires s.If? && !IsGuard(s)
    ensures StmtNodes(VisitStmt(s)[0]) == LeftStmt(s, true)
    ensures StmtNodes(InPlaceStmt(s)) == LeftStmt(s, false)
    decreases s, 0
  {
    VisitLeavesNodes(s.test);
    VisitLeavesBlock(s.body);
    VisitLeavesBlock(s.orelse);
  }

  lemma {:induction false} VisitLeavesWhile(s: Stmt)
    requires s.While?
    ensures StmtNodes(VisitStmt(s)[0]) == LeftStmt(s, true)
    ensures StmtNodes(InPlaceStmt(s)) == LeftStmt(s, false)
    decreases s, 0
  {
    VisitLeavesNodes(s.test);
    VisitLeavesBlock(s.body);
  }

  lemma {:induction false} VisitLeavesFor(s: Stmt)
    requires s.For?
    ensures StmtNodes(VisitStmt(s)[0]) == LeftStmt(s, true)
    ensures StmtNodes(InPlaceStmt(s)) == LeftStmt(s, false)
    decreases s, 0
  {
    VisitLeavesNodes(s.iter);
    VisitLeavesBlock(s.body);
    VisitLeavesBlock(s.orelse);
  }

  lemma {:induction false} VisitLeavesAsyncFor(s: Stmt)
    requires s.AsyncFor?
    ensures StmtNodes(VisitStmt(s)[0]) == LeftStmt(s, true)
    ensures StmtNodes(InPlaceStmt(s)) == LeftStmt(s, false)
    decreases s, 0
  {
    VisitLeavesNodes(s.iter);
    VisitLeavesBlock(s.body);
    VisitLeavesBlock(s.orelse);
  }

  lemma {:induction false} VisitLeavesWith(s: Stmt)
    requires s.With?
    ensures StmtNodes(VisitStmt(s)[0]) == LeftStmt(s, true)
    ensures StmtNodes(InPlaceStmt(s)) == LeftStmt(s, false)
    decreases s, 0
  {
    VisitLeavesNodes(s.context);
    VisitLeavesBlock(s.body);
  }

  lemma {:induction false} VisitLeavesAsyncWith(s: Stmt)
    requires s.AsyncWith?
    ensures StmtNodes(VisitStmt(s)[0]) == LeftStmt(s, true)
    ensures StmtNodes(InPlaceStmt(s)) == LeftStmt(s, false)
    decreases s, 0
  {
    VisitLeavesNodes(s.context);
    VisitLeavesBlock(s.body);
  }

  lemma {:induction false} VisitLeavesDef(s: Stmt)
    requires s.FunctionDef?
    ensures StmtNodes(VisitStmt(s)[0]) == LeftStmt(s, true)
    ensures StmtNodes(InPlaceStmt(s)) == LeftStmt(s, false)
    decreases s, 0
  {
    VisitsLeaveNodes(s.decorators);
    VisitLeavesBlock(s.body);
  }

  lemma {:induction false} VisitLeavesAsyncDef(s: Stmt)
    requires s.AsyncFunctionDef?
    ensures StmtNodes(VisitStmt(s)[0]) == LeftStmt(s, true)
    ensures StmtNodes(InPlaceStmt(s)) == LeftStmt(s, false)
    decreases s, 0
  {
    VisitsLeaveNodes(s.decorators);
    VisitLeavesBlock(s.body);
    assert VisitStmt(s)[0] == FunctionDef(s.name, s.params, VisitExprs(s.decorators), VisitBlock(s.body));
  }

  /** What a visit leaves of a block, node by node. */
  lemma {:induction false} VisitLeavesBlock(b: seq<Stmt>)
    ensures EachNodes(VisitBlock(b)) == EachLeft(b, true)
    ensures BlockNodes(VisitBlock(b)) == BlockLeft(b)
    decreases b, 0
  {
    if b != [] {
      VisitLeavesStmt(b[0]);
      VisitLeavesBlock(b[1..]);
      EachConcat(VisitStmt(b[0]), VisitBlock(b[1..]));
    }
    BlockIsEach(VisitBlock(b));
  }

  lemma {:induction false} VisitLeavesEach(b: seq<Stmt>)
    ensures EachNodes(InPlaceEach(b)) == EachLeft(b, false)
    decreases b, 0
  {
    if b != [] {
      VisitLeavesStmt(b[0]);
      VisitLeavesEach(b[1..]);
      EachConcat([InPlaceStmt(b[0])], InPlaceEach(b[1..]));
      EachOfOne(InPlaceStmt(b[0]));
    }
  }

  // ----- Code without guards -----

  lemma SyncHead(s: Stmt, returned: bool, x: seq<Node>, y: seq<Node>)
    requires Sync(x) == Sync(y)
    ensures Sync([LeftHead(s, returned)] + x) == Sync([Head(s)] + y)
  {
    SyncConcat([LeftHead(s, returned)], x);
    SyncConcat([Head(s)], y);
  }

  lemma SyncSame(a: seq<Node>, a': seq<Node>, b: seq<Node>, b': seq<Node>)
    requires Sync(a) == Sync(a') && Sync(b) == Sync(b')
    ensures Sync(a + b) == Sync(a' + b')
  {
    SyncConcat(a, b);
    SyncConcat(a', b');
  }

  /** The nodes of a statement below its own. */
  function Below(s: Stmt): seq<Node> {
    StmtNodes(s)[1..]
  }

  lemma {:induction false} SyncLeftStmt(s: Stmt, returned: bool)
    requires GuardFree(s)
    ensures Sync(LeftStmt(s, returned)) == Sync(StmtNodes(s))
    decreases s, 1
  {
    var left := LeftStmt(s, returned)[1..];
    assert LeftStmt(s, returned) == [LeftHead(s, returned)] + left;
    assert StmtNodes(s) == [Head(s)] + Below(s);
    SyncBelow(s, returned);
    SyncHead(s, returned, left, Below(s));
  }

  lemma {:induction false} SyncBelow(s: Stmt, returned: bool)
    requires GuardFree(s)
    ensures Sync(LeftStmt(s, returned)[1..]) == Sync(Below(s))
    decreases s, 0
  {
    if s.If? || s.For? || s.AsyncFor? {
      SyncTwoBlocks(s, returned);
    } else if s.While? || s.With? || s.AsyncWith? {
      SyncNodesLeft(Tested(s), false);
      SyncLeftBlock(s.body);
      SyncSame(NodesLeft(Tested(s), false), Nodes(Tested(s)), BlockLeft(s.body), BlockNodes(s.body));
    } else if s.FunctionDef? || s.AsyncFunctionDef? {
      SyncLeftBlock(s.body);
      SyncAllLeft(s.decorators);
      SyncSame(AllLeft(s.decorators), NodesOfAll(s.decorators), BlockLeft(s.body), BlockNodes(s.body));
    } else if s.ExprStmt? || s.Assign? || s.Return? {
      SyncNodesLeft(s.value, false);
    }
  }

  lemma {:induction false} SyncTwoBlocks(s: Stmt, returned: bool)
    requires GuardFree(s) && (s.If? || s.For? || s.AsyncFor?)
    ensures Sync(LeftStmt(s, returned)[1..]) == Sync(Below(s))
    decreases s, 0, 0
  {
    var under := s.AsyncFor? && !returned;
    SyncNodesLeft(Tested(s), under);
    SyncLeftBlock(s.body);
    SyncLeftBlock(s.orelse);
    SyncThree(NodesLeft(Tested(s), under), Nodes(Tested(s)), BlockLeft(s.body), BlockNodes(s.body),
              BlockLeft(s.orelse), BlockNodes(s.orelse));
    BelowTwoBlocks(s, returned);
  }

  lemma SyncThree(x: seq<Node>, x': seq<Node>, b: seq<Node>, b': seq<Node>, o: seq<Node>, o': seq<Node>)
    requires Sync(x) == Sync(x') && Sync(b) == Sync(b') && Sync(o) == Sync(o')
    ensures Sync(x + b + o) == Sync(x' + b' + o')
  {
    SyncSame(x, x', b, b');
    SyncSame(x + b, x' + b', o, o');
  }

  lemma BelowTwoBlocks(s: Stmt, returned: bool)
    requires !IsGuard(s) && (s.If? || s.For? || s.AsyncFor?)
    ensures Below(s) == Nodes(Tested(s)) + BlockNodes(s.body) + BlockNodes(s.orelse)
    ensures LeftStmt(s, returned)[1..]
         == NodesLeft(Tested(s), s.AsyncFor? && !returned) + BlockLeft(s.body) + BlockLeft(s.orelse)
  {
  }

  lemma {:induction false} SyncLeftBlock(b: seq<Stmt>)
    requires GuardFreeBlock(b)
    ensures Sync(EachLeft(b, true)) == Sync(EachNodes(b))
    ensures Sync(BlockLeft(b)) == Sync(BlockNodes(b))
    decreases b, 0
  {
    if b != [] {
      SyncLeftStmt(b[0], true);
      SyncLeftBlock(b[1..]);
      SyncConcat(LeftStmt(b[0], true), EachLeft(b[1..], true));
      SyncConcat(StmtNodes(b[0]), EachNodes(b[1..]));
    }
    BlockIsEach(b);
    SyncConcat(EachLeft(b, true), [End]);
    SyncConcat(EachNodes(b), [End]);
  }

  /** A visited block without guards has the nodes of the original, each where it was: awaits are
      taken out and statements are of the sync kind, and that is all. */
  lemma VisitKeepsBlocks(b: seq<Stmt>)
    requires GuardFreeBlock(b)
    ensures Sync(BlockNodes(VisitBlock(b))) == Sync(BlockNodes(b))
  {
    VisitLeavesBlock(b);
    SyncLeftBlock(b);
  }
}
