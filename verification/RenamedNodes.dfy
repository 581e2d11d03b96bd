/** What RenameAsyncToSync makes of a tree, node by node: names are looked up, AsyncGenerator[X, Y]
    gets an argument, docstrings of definitions are fixed, and everything else is as it was. */
module RenamedNodes {
  import opened PythonAst
  import opened RenameAsyncToSync
  import opened RenameStatements
  import opened SyntaxNodes

  // ----- Expressions -----

  /** The nodes of a renamed expression: those of the expression with their names looked up, and in
      AsyncGenerator[X, Y] those of Y a second time. */
  function NodesPut(e: Expr): seq<Node>
    decreases e, 1
  {
    match e
    case Name(id) => [NameNode(Lookup(id))]
    case Constant(l) => [ConstantNode(l)]
    case Attribute(o, a) => [AttributeNode(Lookup(a))] + NodesPut(o)
    case Call(f, args) => [CallNode] + NodesPut(f) + AllPut(args)
    case BinOp(l, op, r) => [BinOpNode(op)] + NodesPut(l) + NodesPut(r)
    case Subscript(c, s) =>
      if c == Name("AsyncGenerator") && s.Tuple? && |s.elts| == 2 then
        [SubscriptNode, NameNode("Generator"), TupleNode]
        + NodesPut(s.elts[0]) + NodesPut(s.elts[1]) + NodesPut(s.elts[1]) + [End]
      else [SubscriptNode] + NodesPut(c) + NodesPut(s)
    case Tuple(elts) => [TupleNode] + AllPut(elts)
    case Comprehension(elt, t, iter, isAsync) =>
      [ComprehensionNode(Lookup(t), isAsync)] + NodesPut(elt) + NodesPut(iter)
    case Await(v) => [AwaitNode] + NodesPut(v)
  }

  function AllPut(es: seq<Expr>): seq<Node>
    decreases es, 0
  {
    if es == [] then [End] else NodesPut(es[0]) + AllPut(es[1..])
  }

  lemma {:induction false} RenamePutsNodes(e: Expr)
    ensures Nodes(Rename(e)) == NodesPut(e)
    decreases e, 1
  {
    match e
    case Name(_) =>
    case Constant(_) =>
    case Attribute(o, _) => RenamePutsNodes(o);
    case Call(f, args) => RenamePutsNodes(f); RenamePutsAll(args);
    case BinOp(l, _, r) => RenamePutsNodes(l); RenamePutsNodes(r);
    case Subscript(c, s) =>
      if IsAsyncGenerator(e) {
        RenamePutsNodes(s.elts[0]);
        RenamePutsNodes(s.elts[1]);
        GeneratorGetsOneArgument(e);
        GeneratorNodes(Rename(s.elts[0]), Rename(s.elts[1]));
      } else {
        RenamePutsNodes(c);
        RenamePutsNodes(s);
      }
    case Tuple(elts) => RenamePutsAll(elts);
    case Comprehension(elt, _, iter, _) => RenamePutsNodes(elt); RenamePutsNodes(iter);
    case Await(v) => RenamePutsNodes(v);
  }

  lemma GeneratorNodes(x: Expr, y: Expr)
    ensures Nodes(Subscript(Name("Generator"), Tuple([x, y, y])))
         == [SubscriptNode, NameNode("Generator"), TupleNode] + Nodes(x) + Nodes(y) + Nodes(y) + [End]
  {
    assert [x, y, y][1..] == [y, y] && [y, y][1..] == [y] && [y][1..] == [];
    assert NodesOfAll([y]) == Nodes(y) + [End];
    assert NodesOfAll([x, y, y]) == Nodes(x) + (Nodes(y) + (Nodes(y) + [End]));
    GeneratorGroup(Nodes(x), Nodes(y));
  }

  lemma GeneratorGroup(x: seq<Node>, y: seq<Node>)
    ensures [SubscriptNode] + [NameNode("Generator")] + ([TupleNode] + (x + (y + (y + [End]))))
         == [SubscriptNode, NameNode("Generator"), TupleNode] + x + y + y + [End]
  {
  }

  lemma {:induction false} RenamePutsAll(es: seq<Expr>)
    ensures NodesOfAll(RenameEach(es)) == AllPut(es)
    decreases es, 0
  {
    if es != [] {
      RenamePutsNodes(es[0]);
      RenamePutsAll(es[1..]);
      assert RenameEach(es)[1..] == RenameEach(es[1..]);
    }
  }

  // ----- Statements -----

  /** The node of a statement with its names looked up. A sync definition keeps its name and its parameters. */
  function Put(n: Node): Node {
    match n
    case AssignNode(t) => AssignNode(Lookup(t))
    case ForNode(t, isAsync) => ForNode(Lookup(t), isAsync)
    case WithNode(t, isAsync) => WithNode(Lookup(t), isAsync)
    case DefNode(name, ps, isAsync) =>
      if isAsync then DefNode(Lookup(name), LookupEach(ps), true) else n
    case _ => n
  }

  /** The nodes of a renamed statement. */
  function StmtPut(s: Stmt): seq<Node>
    decreases s, 1
  {
    [Put(Head(s))] + BelowPut(s)
  }

  function BelowPut(s: Stmt): seq<Node>
    decreases s, 0
  {
    if Compound(s) then
      NodesPut(Tested(s)) + (BlockPut(s.body) + if HasOrElse(s) then BlockPut(s.orelse) else [])
    else if s.FunctionDef? || s.AsyncFunctionDef? then AllPut(s.decorators) + BodyPut(s.body)
    else if s.ExprStmt? || s.Assign? || s.Return? then NodesPut(s.value)
    else []
  }

  function BlockPut(b: seq<Stmt>): seq<Node>
    decreases b, 0
  {
    if b == [] then [End] else StmtPut(b[0]) + BlockPut(b[1..])
  }

  predicate HasDocstring(b: seq<Stmt>) {
    b != [] && b[0].ExprStmt? && b[0].value.Constant? && b[0].value.value.StrLit?
  }

  /** The body of a definition, whose docstring no longer says "Async" or "(async". */
  function BodyPut(b: seq<Stmt>): seq<Node>
    decreases b, 1
  {
    if HasDocstring(b) then
      [ExprStmtNode, ConstantNode(StrLit(Fixed(b[0].value.value.s)))] + BlockPut(b[1..])
    else BlockPut(b)
  }

  function Fixed(doc: string): string {
    ReplaceAll(ReplaceAll(doc, "Async", ""), "(async", "(sync")
  }

  lemma {:induction false} RenamePutsStmt(s: Stmt)
    ensures StmtNodes(RenameStmt(s)) == StmtPut(s)
    decreases s, 1
  {
    PutHead(s);
    if Compound(s) {
      RenamePutsCompound(s);
    } else if s.FunctionDef? || s.AsyncFunctionDef? {
      RenamePutsDef(s);
    } else if s.ExprStmt? || s.Assign? || s.Return? {
      RenamePutsNodes(s.value);
    }
  }

  lemma PutHead(s: Stmt)
    ensures Head(RenameStmt(s)) == Put(Head(s))
  {
    if s.For? || s.AsyncFor? {
      PutForHead(s);
    } else if s.With? || s.AsyncWith? {
      PutWithHead(s);
    } else if s.FunctionDef? || s.AsyncFunctionDef? {
      PutDefHead(s);
    }
  }

  lemma PutForHead(s: Stmt)
    requires s.For? || s.AsyncFor?
    ensures Head(RenameStmt(s)) == Put(Head(s))
  {
  }

  lemma PutWithHead(s: Stmt)
    requires s.With? || s.AsyncWith?
    ensures Head(RenameStmt(s)) == Put(Head(s))
  {
  }

  lemma PutDefHead(s: Stmt)
    requires s.FunctionDef? || s.AsyncFunctionDef?
    ensures Head(RenameStmt(s)) == Put(Head(s))
  {
  }

  lemma {:induction false} RenamePutsCompound(s: Stmt)
    requires Compound(s)
    ensures StmtNodes(RenameStmt(s)) == StmtPut(s)
    decreases s, 0
  {
    var r := RenameStmt(s);
    RenameParts(s);
    PutHead(s);
    RenamePutsNodes(Tested(s));
    RenamePutsBlock(s.body);
    if HasOrElse(s) {
      RenamePutsBlock(s.orelse);
    }
    CompoundNodes(r, []);
    Group([Head(r)], Nodes(Tested(r)), BlockNodes(r.body) + OrElseNodes(r));
    assert OrElseNodes(r) + [] == OrElseNodes(r);
  }

  lemma RenameParts(s: Stmt)
    requires Compound(s)
    ensures Compound(RenameStmt(s)) && HasOrElse(RenameStmt(s)) == HasOrElse(s)
    ensures Tested(RenameStmt(s)) == Rename(Tested(s)) && RenameStmt(s).body == RenameBlock(s.body)
    ensures HasOrElse(s) ==> RenameStmt(s).orelse == RenameBlock(s.orelse)
  {
  }

  lemma {:induction false} RenamePutsDef(s: Stmt)
    requires s.FunctionDef? || s.AsyncFunctionDef?
    ensures StmtNodes(RenameStmt(s)) == StmtPut(s)
    decreases s, 0
  {
    var r := RenameStmt(s);
    PutHead(s);
    RenamePutsAll(s.decorators);
    RenamePutsBody(s.body);
    assert r.decorators == RenameEach(s.decorators) && r.body == FixDocstring(RenameBlock(s.body));
    DefinitionNodes(r, []);
    Group([Head(r)], NodesOfAll(r.decorators), BlockNodes(r.body));
  }

  /** The nodes of a renamed block. */
  lemma {:induction false} RenamePutsBlock(b: seq<Stmt>)
    ensures BlockNodes(RenameBlock(b)) == BlockPut(b)
    decreases b, 0
  {
    if b != [] {
      RenamePutsStmt(b[0]);
      RenamePutsBlock(b[1..]);
      assert RenameBlock(b)[1..] == RenameBlock(b[1..]);
    }
  }

  lemma {:induction false} RenamePutsBody(b: seq<Stmt>)
    ensures BlockNodes(FixDocstring(RenameBlock(b))) == BodyPut(b)
    decreases b, 2
  {
    RenamePutsBlock(b);
    DocstringStays(b);
    if HasDocstring(b) {
      RenamePutsBlock(b[1..]);
      DocstringNodes(RenameBlock(b));
    }
  }

  lemma DocstringStays(b: seq<Stmt>)
    ensures HasDocstring(RenameBlock(b)) <==> HasDocstring(b)
    ensures HasDocstring(b) ==> RenameBlock(b)[0] == b[0] && RenameBlock(b)[1..] == RenameBlock(b[1..])
  {
    if b != [] && b[0].ExprStmt? {
      TestsStay(b[0].value);
    }
  }

  lemma DocstringNodes(b: seq<Stmt>)
    requires HasDocstring(b)
    ensures BlockNodes(FixDocstring(b))
         == [ExprStmtNode, ConstantNode(StrLit(Fixed(b[0].value.value.s)))] + BlockNodes(b[1..])
  {
    var d := ExprStmt(Constant(StrLit(Fixed(b[0].value.value.s))));
    assert FixDocstring(b)[0] == d && FixDocstring(b)[1..] == b[1..];
    assert StmtNodes(d) == [ExprStmtNode, ConstantNode(d.value.value)];
  }
}
