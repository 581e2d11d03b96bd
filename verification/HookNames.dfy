/** What becomes of the hooks that a program defines for its own classes. The renaming maps
    __aenter__, __aexit__ and __aiter__, but not __anext__, and only in async definitions. */
module HookNames {
  import opened PythonAst
  import opened AsyncSemantics
  import opened RenameAsyncToSync
  import opened SyncPipeline
  import opened CoreLanguage
  import opened AsyncTranslation

  // ----- Names that stay -----

  /** Names that the renaming leaves alone. */
  predicate PlainName(x: string) {
    x != "" && x[0] != 'A' && x[0] != 'a' && x[0] != '_' && x[0] != 'r' && x[0] != 'g'
  }

  lemma PlainNamesStay(x: string)
    requires PlainName(x)
    ensures Lookup(x) == x && Counterpart(x) == x
  {
    NotAName(x);
  }

  // ----- Names of hooks -----

  lemma NewHookNames()
    ensures Lookup("__aenter__") == "__enter__" && Lookup("__aexit__") == "__exit__"
    ensures Lookup("__aiter__") == "__iter__" && Lookup("__anext__") == "__anext__"
  {
    assert "__aenter__" in NAMES_1 && NAMES_1["__aenter__"] == "__enter__";
    assert "__aexit__" in NAMES_1 && NAMES_1["__aexit__"] == "__exit__";
    assert "__aiter__" in NAMES_1 && NAMES_1["__aiter__"] == "__iter__";
    UnderscoreNames("__aenter__");
    UnderscoreNames("__aexit__");
    UnderscoreNames("__aiter__");
    UnderscoreNames("__anext__");
  }

  /** Mapped names that start with an underscore are hooks. */
  lemma UnderscoreNames(x: string)
    requires x != "" && x[0] == '_'
    ensures x in NAMES <==> x == "__aenter__" || x == "__aexit__" || x == "__aiter__"
    ensures x in NAMES ==> x in NAMES_1 && NAMES[x] == NAMES_1[x]
  {
    NoUnderscore2(x);
    NoUnderscore3(x);
    NoUnderscore4(x);
  }

  lemma NoUnderscore2(x: string)
    requires x != "" && x[0] == '_'
    ensures x !in NAMES_2
  {
  }

  lemma NoUnderscore3(x: string)
    requires x != "" && x[0] == '_'
    ensures x !in NAMES_3
  {
  }

  lemma NoUnderscore4(x: string)
    requires x != "" && x[0] == '_'
    ensures x !in NAMES_4
  {
  }

  lemma OtherValues1(x: string)
    requires x in NAMES_1 && x != "" && x[0] != '_'
    ensures NAMES_1[x] != "" && NAMES_1[x][0] != '_'
  {
  }

  lemma OtherValues2(x: string)
    requires x in NAMES_2
    ensures NAMES_2[x] != "" && NAMES_2[x][0] != '_'
  {
  }

  lemma OtherValues3(x: string)
    requires x in NAMES_3
    ensures NAMES_3[x] != "" && NAMES_3[x][0] != '_'
  {
  }

  lemma OtherValues4(x: string)
    requires x in NAMES_4
    ensures NAMES_4[x] != "" && NAMES_4[x][0] != '_'
  {
  }

  lemma OtherValues(x: string)
    requires x in NAMES && x != "" && x[0] != '_'
    ensures NAMES[x] != "" && NAMES[x][0] != '_'
  {
    if x in NAMES_4 {
      OtherValues4(x);
    } else if x in NAMES_3 {
      OtherValues3(x);
    } else if x in NAMES_2 {
      OtherValues2(x);
    } else {
      OtherValues1(x);
    }
  }

  /** The name of a sync hook comes from itself, or from the async hook if that is mapped. */
  lemma SyncHookSource(role: Role, x: string)
    requires Lookup(x) == HookName(false, role)
    ensures x == HookName(false, role) || (role != NextHook && x == HookName(true, role))
  {
    NewHookNames();
    EmptyIsNoName();
    HookStart(role);
    if x in NAMES {
      if x[0] == '_' {
        UnderscoreNames(x);
      } else {
        OtherValues(x);
      }
    }
  }

  lemma HookStart(role: Role)
    ensures HookName(false, role)[0] == '_'
  {
  }

  lemma HooksDiffer(role: Role)
    ensures HookName(true, role) != HookName(false, role)
    ensures role != NextHook ==> Lookup(HookName(true, role)) == HookName(false, role)
    ensures role == NextHook ==> Lookup(HookName(true, role)) == HookName(true, role)
    ensures Counterpart(HookName(true, role)) == HookName(false, role)
  {
    NewHookNames();
    assert HookName(true, role)[2] == 'a' && HookName(false, role)[2] != 'a';
  }

  /** The name of a sync hook is the counterpart of itself or of the async hook. */
  lemma CounterpartSource(role: Role, x: string)
    requires Counterpart(x) == HookName(false, role)
    ensures x == HookName(false, role) || x == HookName(true, role)
  {
    if x == "__anext__" {
      assert "__next__"[2] == 'n' && "__iter__"[2] == 'i' && "__enter__"[2] == 'e' && "__exit__"[2] == 'e';
    } else {
      SyncHookSource(role, x);
    }
  }

  // ----- Which hooks are found after translation -----

  /** Of an object with an async hook, and without a sync one beside it, the translated statement
      finds the hook, if and only if the program does not define the hook itself or it is one of
      __aenter__ and __aexit__. */
  lemma AsyncHookSurvivesIff<W(!new)>(k: Pairing<W>, o: Val, role: Role)
    requires IsTranslation(k) && LinkedAlike(k)
    requires HasHook(k.p, true, o, role) && !Known(k.p, HookOf(o.class_, false, role))
    ensures HasHook(k.q, false, o, role)
       <==> HookOf(o.class_, true, role) !in k.p.defs || role == EnterHook || role == ExitHook
  {
    var f, g := HookOf(o.class_, true, role), HookOf(o.class_, false, role);
    HooksDiffer(role);
    if f !in k.p.defs || role == EnterHook || role == ExitHook {
      assert NewName(k, f) == g;
      BecomesKnown(k, f);
    } else if Known(k.q, g) {
      var f' := KnownFrom(k, g);
      HookSource(k, f', o.class_, role);
      assert false;
    }
  }

  /** What is known as a sync hook after translation was one before, or was the async one. */
  lemma HookSource<W>(k: Pairing<W>, f: Fn, class_: string, role: Role)
    requires IsTranslation(k) && NewName(k, f) == HookOf(class_, false, role)
    ensures f == HookOf(class_, false, role) || f == HookOf(class_, true, role)
  {
    if f !in k.p.defs {
      CounterpartSource(role, f.name);
    } else if f.name != HookName(false, role) {
      assert Lookup(f.name) == HookName(false, role);
      SyncHookSource(role, f.name);
    }
  }

  lemma BecomesKnown<W(!new)>(k: Pairing<W>, f: Fn)
    requires IsTranslation(k) && LinkedAlike(k) && Known(k.p, f)
    ensures Known(k.q, NewName(k, f)) && !IsAsync(k.q, NewName(k, f))
  {
    NeverAsync(k, NewName(k, f));
  }

  lemma NeverAsync<W(!new)>(k: Pairing<W>, g: Fn)
    requires IsTranslation(k) && LinkedAlike(k)
    ensures !IsAsync(k.q, g)
  {
    if g in k.q.defs {
      var f := Origin(k, g);
      ShapeOfDef(k.p.defs[f]);
    } else if g in k.q.linked {
      assert IsCounterpartIn(k, g);
    }
  }

  lemma KnownFrom<W(!new)>(k: Pairing<W>, g: Fn) returns (f: Fn)
    requires IsTranslation(k) && LinkedAlike(k) && Known(k.q, g)
    ensures Known(k.p, f) && NewName(k, f) == g
  {
    if g in k.q.defs {
      f := Origin(k, g);
    } else {
      assert IsCounterpartIn(k, g);
      f :| f in k.p.linked && f !in k.p.defs && NewName(k, f) == g;
    }
  }

  /** A loop that does not find the hook stops there, whatever else it is. */
  lemma StopsWithoutHook<W>(
      q: Program<W>, o: Val, role: Role, x: string, b: seq<Stmt>, else_: seq<Stmt>, env: Env, w: W, fuel: nat)
    requires !HasHook(q, false, o, role)
    ensures role == IterHook ==> IterateOver(q, false, x, o, b, else_, env, w, fuel) == (Stuck, env, w)
    ensures role == NextHook ==> Iterate(q, false, x, o, b, else_, env, w, fuel) == (Stuck, env, w)
  {
    assert CallHook(q, false, o, role, [o], w, fuel) == (Misused, w);
  }

  /** An iteration over an object whose class defines its own async hooks, and no sync ones, does
      not get past the first of them once translated, whatever the loop is. */
  lemma OwnIterationStops<W(!new)>(
      k: Pairing<W>, o: Val, role: Role, x: string, b: seq<Stmt>, else_: seq<Stmt>, env: Env, w: W, fuel: nat)
    requires IsTranslation(k) && LinkedAlike(k) && (role == IterHook || role == NextHook)
    requires HasHook(k.p, true, o, role) && !Known(k.p, HookOf(o.class_, false, role))
    requires HookOf(o.class_, true, role) in k.p.defs
    ensures
      if role == IterHook then IterateOver(k.q, false, x, o, b, else_, env, w, fuel) == (Stuck, env, w)
      else Iterate(k.q, false, x, o, b, else_, env, w, fuel) == (Stuck, env, w)
  {
    AsyncHookSurvivesIff(k, o, role);
    StopsWithoutHook(k.q, o, role, x, b, else_, env, w, fuel);
  }

  // ----- Which calls reach their definition -----

  /** Where the program calls a function of its own, the translated call reaches the translated
      definition, if and only if that is async or its name is not a mapped one: names in calls
      are renamed, but names of sync definitions are not. */
  lemma CallReachesIff<W>(k: Pairing<W>, f: Fn)
    requires IsTranslation(k) && f in k.p.defs
    ensures NewName(k, f) == f.(name := Lookup(f.name)) <==> k.p.defs[f].AsyncFunctionDef? || f.name !in NAMES
  {
    LookupIsIdempotent(f.name);
    assert k.rename(f.name) == Lookup(f.name);
  }

  lemma LookupFixesIff(x: string)
    ensures Lookup(x) == x <==> x !in NAMES
  {
    LookupIsIdempotent(x);
  }

  /** The same of a parameter, which is renamed wherever the body uses it. */
  lemma ParameterReachedIff(d: Stmt, i: nat)
    requires IsDefinition(d) && i < |d.params|
    ensures SyncOfDef(d).FunctionDef? && |SyncOfDef(d).params| == |d.params|
    ensures SyncOf(Name(d.params[i])) == Name(SyncOfDef(d).params[i])
       <==> d.AsyncFunctionDef? || d.params[i] !in NAMES
  {
    ShapeOfDef(d);
    ShapeOfName(Lookup, d.params[i]);
    LookupFixesIff(d.params[i]);
  }
}
