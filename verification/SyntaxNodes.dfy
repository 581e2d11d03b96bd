/** Syntax trees written out as the sequence of their nodes, parents first and children in the order
    of their fields, with an end mark after every list. The sequence determines the tree. */
module SyntaxNodes {
  import opened PythonAst

  datatype Node =
    | NameNode(id: string)
    | ConstantNode(value: Literal)
    | AttributeNode(attr: string)
    | CallNode
    | BinOpNode(op: string)
    | SubscriptNode
    | TupleNode
    | ComprehensionNode(target: string, isAsync: bool)
    | AwaitNode
    | PassNode
    | CommentNode(text: string)
    | ExprStmtNode
    | AssignNode(target: string)
    | ReturnNode
    | IfNode
    | WhileNode
    | ForNode(target: string, isAsync: bool)
    | WithNode(target: string, isAsync: bool)
    | DefNode(name: string, params: seq<string>, isAsync: bool)
    | End

  function Nodes(e: Expr): (ns: seq<Node>)
    ensures ns != [] && ns[0] != End
  {
    match e
    case Name(id) => [NameNode(id)]
    case Constant(l) => [ConstantNode(l)]
    case Attribute(o, a) => [AttributeNode(a)] + Nodes(o)
    case Call(f, args) => [CallNode] + Nodes(f) + NodesOfAll(args)
    case BinOp(l, op, r) => [BinOpNode(op)] + Nodes(l) + Nodes(r)
    case Subscript(c, s) => [SubscriptNode] + Nodes(c) + Nodes(s)
    case Tuple(elts) => [TupleNode] + NodesOfAll(elts)
    case Comprehension(elt, t, iter, isAsync) => [ComprehensionNode(t, isAsync)] + Nodes(elt) + Nodes(iter)
    case Await(v) => [AwaitNode] + Nodes(v)
  }

  function NodesOfAll(es: seq<Expr>): (ns: seq<Node>)
    ensures ns != [] && (ns[0] == End <==> es == [])
  {
    if es == [] then [End] else Nodes(es[0]) + NodesOfAll(es[1..])
  }

  /** The node of a statement, without its children. */
  function Head(s: Stmt): (n: Node)
    ensures n != End
  {
    match s
    case Pass => PassNode
    case Comment(text) => CommentNode(text)
    case ExprStmt(_) => ExprStmtNode
    case Assign(t, _) => AssignNode(t)
    case Return(_) => ReturnNode
    case If(_, _, _) => IfNode
    case While(_, _) => WhileNode
    case For(t, _, _, _) => ForNode(t, false)
    case AsyncFor(t, _, _, _) => ForNode(t, true)
    case With(_, t, _) => WithNode(t, false)
    case AsyncWith(_, t, _) => WithNode(t, true)
    case FunctionDef(n, ps, _, _) => DefNode(n, ps, false)
    case AsyncFunctionDef(n, ps, _, _) => DefNode(n, ps, true)
  }

  function StmtNodes(s: Stmt): (ns: seq<Node>)
    ensures ns != [] && ns[0] == Head(s)
    decreases s, 1
  {
    [Head(s)] +
    match s
    case Pass => []
    case Comment(_) => []
    case ExprStmt(v) => Nodes(v)
    case Assign(_, v) => Nodes(v)
    case Return(v) => Nodes(v)
    case If(t, b, o) => Nodes(t) + BlockNodes(b) + BlockNodes(o)
    case While(t, b) => Nodes(t) + BlockNodes(b)
    case For(_, i, b, o) => Nodes(i) + BlockNodes(b) + BlockNodes(o)
    case AsyncFor(_, i, b, o) => Nodes(i) + BlockNodes(b) + BlockNodes(o)
    case With(c, _, b) => Nodes(c) + BlockNodes(b)
    case AsyncWith(c, _, b) => Nodes(c) + BlockNodes(b)
    case FunctionDef(_, _, ds, b) => NodesOfAll(ds) + BlockNodes(b)
    case AsyncFunctionDef(_, _, ds, b) => NodesOfAll(ds) + BlockNodes(b)
  }

  function BlockNodes(b: seq<Stmt>): (ns: seq<Node>)
    ensures ns != [] && (ns[0] == End <==> b == [])
    decreases b, 0
  {
    if b == [] then [End] else StmtNodes(b[0]) + BlockNodes(b[1..])
  }

  // ----- The nodes determine the tree -----

  lemma Group(a: seq<Node>, b: seq<Node>, c: seq<Node>)
    ensures a + b + c == a + (b + c)
  {
  }

  lemma SameFirst(a: Node, x: seq<Node>, b: Node, y: seq<Node>)
    requires [a] + x == [b] + y
    ensures a == b && x == y
  {
    assert ([a] + x)[0] == ([b] + y)[0] && ([a] + x)[1..] == x && ([b] + y)[1..] == y;
  }

  /** The first node tells the kind of the expression. */
  lemma SameKind(e: Expr, e': Expr)
    requires Nodes(e)[0] == Nodes(e')[0]
    ensures e.Name? == e'.Name? && e.Constant? == e'.Constant? && e.Attribute? == e'.Attribute?
    ensures e.Call? == e'.Call? && e.BinOp? == e'.BinOp? && e.Subscript? == e'.Subscript?
    ensures e.Tuple? == e'.Tuple? && e.Comprehension? == e'.Comprehension? && e.Await? == e'.Await?
  {
  }

  /** Whatever follows, equal sequences start with equal expressions. */
  lemma {:induction false} ReadExpr(e: Expr, r: seq<Node>, e': Expr, r': seq<Node>)
    requires Nodes(e) + r == Nodes(e') + r'
    ensures e == e' && r == r'
    decreases |Nodes(e)|, 1
  {
    assert (Nodes(e) + r)[0] == Nodes(e)[0] && (Nodes(e') + r')[0] == Nodes(e')[0];
    SameKind(e, e');
    match e
    case Name(id) => SameFirst(NameNode(id), r, NameNode(e'.id), r');
    case Constant(l) => SameFirst(ConstantNode(l), r, ConstantNode(e'.value), r');
    case Attribute(o, a) => ReadOne(AttributeNode(a), o, r, AttributeNode(e'.attr), e'.object_, r');
    case Call(f, args) => ReadCall(f, args, r, e'.func, e'.args, r');
    case BinOp(x, op, y) => ReadTwo(BinOpNode(op), x, y, r, BinOpNode(e'.op), e'.left, e'.right, r');
    case Subscript(x, y) => ReadTwo(SubscriptNode, x, y, r, SubscriptNode, e'.container, e'.slice, r');
    case Tuple(elts) => ReadList(TupleNode, elts, r, TupleNode, e'.elts, r');
    case Comprehension(x, t, y, isAsync) =>
      ReadTwo(ComprehensionNode(t, isAsync), x, y, r, ComprehensionNode(e'.target, e'.isAsync), e'.elt, e'.iter, r');
    case Await(v) => ReadOne(AwaitNode, v, r, AwaitNode, e'.awaited, r');
  }

  lemma {:induction false} ReadList(n: Node, es: seq<Expr>, r: seq<Node>, n': Node, es': seq<Expr>, r': seq<Node>)
    requires [n] + NodesOfAll(es) + r == [n'] + NodesOfAll(es') + r'
    ensures n == n' && es == es' && r == r'
    decreases |NodesOfAll(es)|, 2
  {
    Group([n], NodesOfAll(es), r);
    Group([n'], NodesOfAll(es'), r');
    SameFirst(n, NodesOfAll(es) + r, n', NodesOfAll(es') + r');
    ReadAll(es, r, es', r');
  }

  lemma {:induction false} ReadOne(n: Node, x: Expr, r: seq<Node>, n': Node, x': Expr, r': seq<Node>)
    requires [n] + Nodes(x) + r == [n'] + Nodes(x') + r'
    ensures n == n' && x == x' && r == r'
    decreases |Nodes(x)|, 2
  {
    Group([n], Nodes(x), r);
    Group([n'], Nodes(x'), r');
    SameFirst(n, Nodes(x) + r, n', Nodes(x') + r');
    ReadExpr(x, r, x', r');
  }

  lemma {:induction false} ReadTwo(n: Node, x: Expr, y: Expr, r: seq<Node>, n': Node, x': Expr, y': Expr, r': seq<Node>)
    requires [n] + Nodes(x) + Nodes(y) + r == [n'] + Nodes(x') + Nodes(y') + r'
    ensures n == n' && x == x' && y == y' && r == r'
    decreases |Nodes(x)| + |Nodes(y)| + 1, 0
  {
    Group([n] + Nodes(x), Nodes(y), r);
    Group([n'] + Nodes(x'), Nodes(y'), r');
    ReadOne(n, x, Nodes(y) + r, n', x', Nodes(y') + r');
    ReadExpr(y, r, y', r');
  }

  lemma {:induction false} ReadCall(f: Expr, args: seq<Expr>, r: seq<Node>, f': Expr, args': seq<Expr>, r': seq<Node>)
    requires [CallNode] + Nodes(f) + NodesOfAll(args) + r == [CallNode] + Nodes(f') + NodesOfAll(args') + r'
    ensures f == f' && args == args' && r == r'
    decreases |Nodes(f)| + |NodesOfAll(args)| + 1, 0
  {
    Group([CallNode] + Nodes(f), NodesOfAll(args), r);
    Group([CallNode] + Nodes(f'), NodesOfAll(args'), r');
    ReadOne(CallNode, f, NodesOfAll(args) + r, CallNode, f', NodesOfAll(args') + r');
    ReadAll(args, r, args', r');
  }

  lemma {:induction false} ReadAll(es: seq<Expr>, r: seq<Node>, es': seq<Expr>, r': seq<Node>)
    requires NodesOfAll(es) + r == NodesOfAll(es') + r'
    ensures es == es' && r == r'
    decreases |NodesOfAll(es)|, 0
  {
    assert (NodesOfAll(es) + r)[0] == NodesOfAll(es)[0] && (NodesOfAll(es') + r')[0] == NodesOfAll(es')[0];
    if es == [] {
      assert es' == [];
      SameFirst(End, r, End, r');
    } else {
      assert es' != [];
      Group(Nodes(es[0]), NodesOfAll(es[1..]), r);
      Group(Nodes(es'[0]), NodesOfAll(es'[1..]), r');
      ReadExpr(es[0], NodesOfAll(es[1..]) + r, es'[0], NodesOfAll(es'[1..]) + r');
      ReadAll(es[1..], r, es'[1..], r');
      assert es == [es[0]] + es[1..] && es' == [es'[0]] + es'[1..];
    }
  }

  /** An expression is known by its nodes. */
  lemma ExprsDiffer(e: Expr, e': Expr)
    ensures Nodes(e) == Nodes(e') <==> e == e'
  {
    if Nodes(e) == Nodes(e') {
      ReadExpr(e, [], e', []);
    }
  }

  lemma SameStmtKind(s: Stmt, s': Stmt)
    requires Head(s) == Head(s')
    ensures s.Pass? == s'.Pass? && s.Comment? == s'.Comment? && s.ExprStmt? == s'.ExprStmt?
    ensures s.Assign? == s'.Assign? && s.Return? == s'.Return? && s.If? == s'.If? && s.While? == s'.While?
    ensures s.For? == s'.For? && s.AsyncFor? == s'.AsyncFor? && s.With? == s'.With? && s.AsyncWith? == s'.AsyncWith?
    ensures s.FunctionDef? == s'.FunctionDef? && s.AsyncFunctionDef? == s'.AsyncFunctionDef?
  {
  }

  /** The same of statements. */
  lemma {:induction false} ReadStmt(s: Stmt, r: seq<Node>, s': Stmt, r': seq<Node>)
    requires StmtNodes(s) + r == StmtNodes(s') + r'
    ensures s == s' && r == r'
    decreases |StmtNodes(s)|, 1
  {
    assert (StmtNodes(s) + r)[0] == StmtNodes(s)[0] && (StmtNodes(s') + r')[0] == StmtNodes(s')[0];
    SameStmtKind(s, s');
    if s.Pass? || s.Comment? {
      assert StmtNodes(s) == [Head(s)] && StmtNodes(s') == [Head(s')];
      SameFirst(Head(s), r, Head(s'), r');
    } else if s.ExprStmt? || s.Assign? || s.Return? {
      ReadOne(Head(s), s.value, r, Head(s'), s'.value, r');
    } else if s.FunctionDef? || s.AsyncFunctionDef? {
      ReadDefinition(s, r, s', r');
    } else {
      ReadCompound(s, r, s', r');
    }
  }

  lemma {:induction false} ReadDefinition(s: Stmt, r: seq<Node>, s': Stmt, r': seq<Node>)
    requires s.FunctionDef? || s.AsyncFunctionDef?
    requires s'.FunctionDef? == s.FunctionDef? && s'.AsyncFunctionDef? == s.AsyncFunctionDef?
    requires StmtNodes(s) + r == StmtNodes(s') + r'
    ensures s == s' && r == r'
    decreases |StmtNodes(s)|, 0
  {
    DefinitionNodes(s, r);
    DefinitionNodes(s', r');
    ReadList(Head(s), s.decorators, BlockNodes(s.body) + r, Head(s'), s'.decorators, BlockNodes(s'.body) + r');
    ReadBlock(s.body, r, s'.body, r');
  }

  lemma DefinitionNodes(s: Stmt, r: seq<Node>)
    requires s.FunctionDef? || s.AsyncFunctionDef?
    ensures StmtNodes(s) + r == [Head(s)] + NodesOfAll(s.decorators) + (BlockNodes(s.body) + r)
    ensures |StmtNodes(s)| == 1 + |NodesOfAll(s.decorators)| + |BlockNodes(s.body)|
  {
    Group([Head(s)], NodesOfAll(s.decorators), BlockNodes(s.body));
    Group([Head(s)] + NodesOfAll(s.decorators), BlockNodes(s.body), r);
  }

  /** The expression that a compound statement starts with, and its second block. */
  function Tested(s: Stmt): Expr
    requires Compound(s)
  {
    if s.If? || s.While? then s.test else if s.With? || s.AsyncWith? then s.context else s.iter
  }

  predicate HasOrElse(s: Stmt) {
    s.If? || s.For? || s.AsyncFor?
  }

  function OrElseNodes(s: Stmt): seq<Node> {
    if HasOrElse(s) then BlockNodes(s.orelse) else []
  }

  predicate Compound(s: Stmt) {
    s.If? || s.While? || s.For? || s.AsyncFor? || s.With? || s.AsyncWith?
  }

  predicate SameCompoundKind(s: Stmt, s': Stmt) {
    && s.If? == s'.If? && s.While? == s'.While? && s.For? == s'.For? && s.AsyncFor? == s'.AsyncFor?
    && s.With? == s'.With? && s.AsyncWith? == s'.AsyncWith?
  }

  lemma {:induction false} ReadCompound(s: Stmt, r: seq<Node>, s': Stmt, r': seq<Node>)
    requires Compound(s) && SameCompoundKind(s, s') && StmtNodes(s) + r == StmtNodes(s') + r'
    ensures s == s' && r == r'
    decreases |StmtNodes(s)|, 0
  {
    CompoundNodes(s, r);
    CompoundNodes(s', r');
    CompoundSize(s);
    ReadOne(Head(s), Tested(s), BlockNodes(s.body) + (OrElseNodes(s) + r),
            Head(s'), Tested(s'), BlockNodes(s'.body) + (OrElseNodes(s') + r'));
    ReadBlock(s.body, OrElseNodes(s) + r, s'.body, OrElseNodes(s') + r');
    if HasOrElse(s) {
      ReadBlock(s.orelse, r, s'.orelse, r');
    } else {
      assert [] + r == r && [] + r' == r';
    }
    SameParts(s, s');
  }

  lemma SameParts(s: Stmt, s': Stmt)
    requires Compound(s) && SameCompoundKind(s, s') && Head(s) == Head(s') && Tested(s) == Tested(s')
    requires s.body == s'.body && (HasOrElse(s) ==> s.orelse == s'.orelse)
    ensures s == s'
  {
    match s
    case If(_, _, _) => assert s' == If(s'.test, s'.body, s'.orelse);
    case While(_, _) => assert s' == While(s'.test, s'.body);
    case For(_, _, _, _) => assert s' == For(s'.target, s'.iter, s'.body, s'.orelse);
    case AsyncFor(_, _, _, _) => assert s' == AsyncFor(s'.target, s'.iter, s'.body, s'.orelse);
    case With(_, _, _) => assert s' == With(s'.context, s'.target, s'.body);
    case AsyncWith(_, _, _) => assert s' == AsyncWith(s'.context, s'.target, s'.body);
  }

  lemma Regroup(h: seq<Node>, x: seq<Node>, b: seq<Node>, o: seq<Node>, r: seq<Node>)
    ensures h + (x + b + o) + r == h + x + (b + (o + r))
    ensures h + (x + b) + r == h + x + (b + ([] + r))
  {
  }

  lemma CompoundNodes(s: Stmt, r: seq<Node>)
    requires Compound(s)
    ensures StmtNodes(s) + r == [Head(s)] + Nodes(Tested(s)) + (BlockNodes(s.body) + (OrElseNodes(s) + r))
  {
    Regroup([Head(s)], Nodes(Tested(s)), BlockNodes(s.body), OrElseNodes(s), r);
  }

  lemma CompoundSize(s: Stmt)
    requires Compound(s)
    ensures |StmtNodes(s)| == 1 + |Nodes(Tested(s))| + |BlockNodes(s.body)| + |OrElseNodes(s)|
  {
  }

  lemma {:induction false} ReadBlock(b: seq<Stmt>, r: seq<Node>, b': seq<Stmt>, r': seq<Node>)
    requires BlockNodes(b) + r == BlockNodes(b') + r'
    ensures b == b' && r == r'
    decreases |BlockNodes(b)|, 2
  {
    assert (BlockNodes(b) + r)[0] == BlockNodes(b)[0] && (BlockNodes(b') + r')[0] == BlockNodes(b')[0];
    if b == [] {
      SameFirst(End, r, End, r');
    } else {
      Group(StmtNodes(b[0]), BlockNodes(b[1..]), r);
      Group(StmtNodes(b'[0]), BlockNodes(b'[1..]), r');
      ReadStmt(b[0], BlockNodes(b[1..]) + r, b'[0], BlockNodes(b'[1..]) + r');
      ReadBlock(b[1..], r, b'[1..], r');
      assert b == [b[0]] + b[1..] && b' == [b'[0]] + b'[1..];
    }
  }

  /** A block is known by its nodes. */
  lemma BlocksDiffer(b: seq<Stmt>, b': seq<Stmt>)
    ensures BlockNodes(b) == BlockNodes(b') <==> b == b'
  {
    if BlockNodes(b) == BlockNodes(b') {
      ReadBlock(b, [], b', []);
    }
  }
}
