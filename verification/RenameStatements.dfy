/** scripts/build_sync_library.py, class RenameAsyncToSync on statements and definitions. */
module RenameStatements {
  import opened PythonAst
  import opened AsyncToSync
  import opened RenameAsyncToSync

  function LookupEach(names: seq<string>): (r: seq<string>)
    ensures |r| == |names| && forall i | 0 <= i < |names| :: r[i] == Lookup(names[i])
  {
    seq(|names|, i requires 0 <= i < |names| => Lookup(names[i]))
  }

  /** A body whose docstring no longer says "Async". Renaming leaves constants alone, so that it
      does not matter which comes first. */
  function FixDocstring(b: seq<Stmt>): (r: seq<Stmt>)
    ensures |r| == |b|
  {
    if b != [] && b[0].ExprStmt? && b[0].value.Constant? && b[0].value.value.StrLit? then
      var doc := ReplaceAll(ReplaceAll(b[0].value.value.s, "Async", ""), "(async", "(sync");
      [ExprStmt(Constant(StrLit(doc)))] + b[1..]
    else b
  }

  /** Variables are names and are renamed where they are assigned too. Of a definition the name
      and the parameters are renamed if it is async; the visit of a sync one leaves both. */
  function RenameStmt(s: Stmt): Stmt
    decreases s, 1
  {
    match s
    case Pass => s
    case Comment(_) => s
    case ExprStmt(v) => ExprStmt(Rename(v))
    case Assign(x, v) => Assign(Lookup(x), Rename(v))
    case Return(v) => Return(Rename(v))
    case If(t, b, o) => If(Rename(t), RenameBlock(b), RenameBlock(o))
    case While(t, b) => While(Rename(t), RenameBlock(b))
    case For(x, i, b, o) => For(Lookup(x), Rename(i), RenameBlock(b), RenameBlock(o))
    case AsyncFor(x, i, b, o) => AsyncFor(Lookup(x), Rename(i), RenameBlock(b), RenameBlock(o))
    case With(c, x, b) => With(Rename(c), Lookup(x), RenameBlock(b))
    case AsyncWith(c, x, b) => AsyncWith(Rename(c), Lookup(x), RenameBlock(b))
    case FunctionDef(n, ps, ds, b) => FunctionDef(n, ps, RenameEach(ds), FixDocstring(RenameBlock(b)))
    case AsyncFunctionDef(n, ps, ds, b) =>
      AsyncFunctionDef(Lookup(n), LookupEach(ps), RenameEach(ds), FixDocstring(RenameBlock(b)))
  }

  function RenameBlock(b: seq<Stmt>): (r: seq<Stmt>)
    ensures |r| == |b|
    decreases b, 0
  {
    if b == [] then [] else [RenameStmt(b[0])] + RenameBlock(b[1..])
  }

  // ----- Guards -----

  lemma NotIsAsync(k: string)
    requires k in NAMES
    ensures NAMES[k] != "" && NAMES[k][0] != 'i'
  {
    if k in NAMES_4 {
      NotIsAsync4(k);
    } else if k in NAMES_3 {
      NotIsAsync3(k);
    } else if k in NAMES_2 {
      NotIsAsync2(k);
    } else {
      NotIsAsync1(k);
    }
  }

  lemma NotIsAsync1(k: string)
    requires k in NAMES_1
    ensures NAMES_1[k] != "" && NAMES_1[k][0] != 'i'
  {
  }

  lemma NotIsAsync2(k: string)
    requires k in NAMES_2
    ensures NAMES_2[k] != "" && NAMES_2[k][0] != 'i'
  {
  }

  lemma NotIsAsync3(k: string)
    requires k in NAMES_3
    ensures NAMES_3[k] != "" && NAMES_3[k][0] != 'i'
  {
  }

  lemma NotIsAsync4(k: string)
    requires k in NAMES_4
    ensures NAMES_4[k] != "" && NAMES_4[k][0] != 'i'
  {
  }

  lemma LookupIsAsync(x: string)
    ensures Lookup(x) == "is_async" <==> x == "is_async"
  {
    assert "is_async"[0] == 'i';
    NotAName("is_async");
    if x in NAMES {
      NotIsAsync(x);
    }
  }

  /** Renaming makes no guard and unmakes none, and each keeps the same branch. */
  lemma RenamingKeepsGuards(s: Stmt)
    ensures IsGuard(RenameStmt(s)) <==> IsGuard(s)
    ensures IsGuard(s) ==> KeepsElse(RenameStmt(s)) == KeepsElse(s)
    ensures IsGuard(s) ==> KeptBranch(RenameStmt(s)) == RenameBlock(KeptBranch(s))
    ensures IsGuard(s) ==> DroppedBranch(RenameStmt(s)) == RenameBlock(DroppedBranch(s))
  {
    if s.If? {
      TestsStay(s.test);
      if s.body != [] {
        FirstStays(s.body);
        assert RenameBlock(s.body)[1..] == RenameBlock(s.body[1..]);
      }
    }
  }

  lemma TestsStay(t: Expr)
    ensures IsAsyncCall(Rename(t)) <==> IsAsyncCall(t)
    ensures Rename(t).Constant? <==> t.Constant?
    ensures t.Constant? ==> Rename(t) == t
  {
    if t.Call? && t.func.Name? {
      LookupIsAsync(t.func.id);
    }
  }

  lemma FirstStays(b: seq<Stmt>)
    requires b != []
    ensures RenameBlock(b)[0].Comment? <==> b[0].Comment?
    ensures b[0].Comment? ==> RenameBlock(b)[0] == b[0]
  {
  }
}
