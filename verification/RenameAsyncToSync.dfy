/** scripts/build_sync_library.py, class RenameAsyncToSync: names, attributes, subscripts and
    from-imports. */
module RenameAsyncToSync {
  import opened Prelude
  import opened PythonAst

  // names_map, in four parts

  const NAMES_1: map<string, string> := map[
    "__aenter__" := "__enter__",
    "__aexit__" := "__exit__",
    "__aiter__" := "__iter__",
    "asyncio.locks" := "threading",
    "AsyncElasticsearch" := "Elasticsearch",
    "AsyncDatabase" := "Database"]

  const NAMES_2: map<string, string> := map[
    "AsyncCollection" := "Collection",
    "AsyncMongoClient" := "MongoClient",
    "redis.asyncio" := "redis",
    "glide.glide_client" := "glide_sync.glide_client",
    "asynccontextmanager" := "contextmanager",
    "AsyncKeyValueProtocol" := "KeyValueProtocol"]

  const NAMES_3: map<string, string> := map[
    "AsyncCullProtocol" := "CullProtocol",
    "AsyncDestroyCollectionProtocol" := "DestroyCollectionProtocol",
    "AsyncDestroyStoreProtocol" := "DestroyStoreProtocol",
    "AsyncEnumerateCollectionsProtocol" := "EnumerateCollectionsProtocol",
    "AsyncEnumerateKeysProtocol" := "EnumerateKeysProtocol",
    "AsyncKeyValue" := "KeyValue"]

  const NAMES_4: map<string, string> := map[
    "AsyncGenerator" := "Generator",
    "asyncio.sleep" := "time.sleep",
    "async_running_in_event_loop" := "running_in_event_loop",
    "asleep" := "sleep",
    "async_wait_for_true" := "wait_for_true",
    "async_gather" := "gather"]

  const NAMES: map<string, string> := NAMES_1 + NAMES_2 + NAMES_3 + NAMES_4

  /** names_map.get(name, name) */
  function Lookup(name: string): string {
    if name in NAMES then NAMES[name] else name
  }

  // ----- No mapped name maps on -----

  /** What the mapped names have in common, and the results have not. */
  predicate LooksAsync(s: string) {
    || "Async" <= s || "async" <= s || "__a" <= s
    || s == "redis.asyncio" || s == "glide.glide_client" || s == "asleep"
  }

  lemma KeysLookAsync1(k: string)
    requires k in NAMES_1
    ensures LooksAsync(k)
  {
  }

  lemma KeysLookAsync2(k: string)
    requires k in NAMES_2
    ensures LooksAsync(k)
  {
  }

  lemma KeysLookAsync3(k: string)
    requires k in NAMES_3
    ensures LooksAsync(k)
  {
  }

  lemma KeysLookAsync4(k: string)
    requires k in NAMES_4
    ensures LooksAsync(k)
  {
  }

  lemma KeysLookAsync(k: string)
    requires k in NAMES
    ensures LooksAsync(k)
  {
    if k in NAMES_4 {
      KeysLookAsync4(k);
    } else if k in NAMES_3 {
      KeysLookAsync3(k);
    } else if k in NAMES_2 {
      KeysLookAsync2(k);
    } else {
      KeysLookAsync1(k);
    }
  }

  /** How the results start: enough of it to tell them from the mapped names and prefixes. */
  predicate PlainStart(v: string) {
    && |v| >= 5 && v[0] != 'A' && v[0] != 'a' && v[0] != 'k' && v[0] != 'p'
    && (v[0] == '_' ==> v[2] != 'a')
    && (v[0] == 't' ==> v[1] != 'e')
    && (v[0] == 'r' ==> |v| == 5 || v[1] == 'u')
    && (v[0] == 'g' ==> |v| == 23 || |v| == 6)
  }

  lemma ResultsStartPlain1(k: string)
    requires k in NAMES_1
    ensures PlainStart(NAMES_1[k])
  {
  }

  lemma ResultsStartPlain2(k: string)
    requires k in NAMES_2
    ensures PlainStart(NAMES_2[k])
  {
  }

  lemma ResultsStartPlain3(k: string)
    requires k in NAMES_3
    ensures PlainStart(NAMES_3[k])
  {
  }

  lemma ResultsStartPlain4(k: string)
    requires k in NAMES_4
    ensures PlainStart(NAMES_4[k])
  {
  }

  lemma ResultsStartPlain(k: string)
    requires k in NAMES
    ensures PlainStart(NAMES[k])
  {
    if k in NAMES_4 {
      ResultsStartPlain4(k);
    } else if k in NAMES_3 {
      ResultsStartPlain3(k);
    } else if k in NAMES_2 {
      ResultsStartPlain2(k);
    } else {
      ResultsStartPlain1(k);
    }
  }

  lemma StartsDiffer(p: string, v: string, i: nat)
    requires i < |p| && i < |v| && p[i] != v[i]
    ensures !(p <= v)
  {
  }

  lemma PlainStartIsNotAsync(v: string)
    requires PlainStart(v)
    ensures !LooksAsync(v)
  {
    StartsDiffer("Async", v, 0);
    StartsDiffer("async", v, 0);
    StartsDiffer("__a", v, if v[0] == '_' then 2 else 0);
    assert "redis.asyncio"[1] == 'e' && "asleep"[0] == 'a' && "glide.glide_client"[0] == 'g';
  }

  lemma ResultsDoNot(k: string)
    requires k in NAMES
    ensures !LooksAsync(NAMES[k])
  {
    ResultsStartPlain(k);
    PlainStartIsNotAsync(NAMES[k]);
  }

  lemma LookupIsIdempotent(name: string)
    ensures Lookup(name) !in NAMES && Lookup(Lookup(name)) == Lookup(name)
  {
    if name in NAMES {
      ResultsDoNot(name);
      if NAMES[name] in NAMES {
        KeysLookAsync(NAMES[name]);
      }
    }
  }

  // ----- Module paths -----

  /** Python's `s.replace(find, put)`: every occurrence, from the left, without overlap. */
  function ReplaceAll(s: string, find: string, put: string): string
    requires find != ""
    decreases |s|
  {
    if s == "" then ""
    else if find <= s then put + ReplaceAll(s[|find|..], find, put)
    else [s[0]] + ReplaceAll(s[1..], find, put)
  }

  /** module_map, in order: the first prefix that fits is replaced, wherever it occurs. */
  function RenamePrefix(m: string): string {
    if "key_value.aio" <= m then ReplaceAll(m, "key_value.aio", "key_value.sync.code_gen")
    else if "pymongo.asynchronous" <= m then ReplaceAll(m, "pymongo.asynchronous", "pymongo")
    else if "tests.stores.conftest" <= m then ReplaceAll(m, "tests.stores.conftest", "tests.code_gen.stores.conftest")
    else if "tests.conftest" <= m then ReplaceAll(m, "tests.conftest", "tests.code_gen.conftest")
    else if "tests.cases" <= m then ReplaceAll(m, "tests.cases", "tests.code_gen.cases")
    else if "tests.stores.base" <= m then ReplaceAll(m, "tests.stores.base", "tests.code_gen.stores.base")
    else m
  }

  predicate HasMappedPrefix(m: string) {
    || "key_value.aio" <= m || "pymongo.asynchronous" <= m || "tests.stores.conftest" <= m
    || "tests.conftest" <= m || "tests.cases" <= m || "tests.stores.base" <= m
  }

  function RenameModule(m: string): string {
    RenamePrefix(Lookup(m))
  }

  /** The start of a replaced string. */
  lemma ReplacedStart(s: string, find: string, put: string)
    requires find != "" && find <= s
    ensures ReplaceAll(s, find, put) == put + ReplaceAll(s[|find|..], find, put)
  {
  }

  /** A prefix without the first letters of `find` and `put` is there after replacing exactly
      when it was there before. */
  lemma {:induction false} PrefixSurvives(t: string, s: string, find: string, put: string)
    requires find != "" && put != "" && find[0] !in t && put[0] !in t
    ensures t <= ReplaceAll(s, find, put) <==> t <= s
    decreases |s|
  {
    if t != "" && s != "" {
      if find <= s {
        assert ReplaceAll(s, find, put)[0] == put[0] && s[0] == find[0];
      } else {
        PrefixSurvives(t[1..], s[1..], find, put);
        var r := ReplaceAll(s[1..], find, put);
        assert ReplaceAll(s, find, put) == [s[0]] + r;
        PrefixByHead(t, s[0], r);
        PrefixByHead(t, s[0], s[1..]);
        assert s == [s[0]] + s[1..];
      }
    }
  }

  lemma PrefixByHead(t: string, c: char, rest: string)
    requires t != ""
    ensures t <= [c] + rest <==> t[0] == c && t[1..] <= rest
  {
    if t[0] == c && t[1..] <= rest {
      assert t == [c] + t[1..];
    }
  }

  lemma {:induction false} ReplacingDoesNotGrow(s: string, find: string, put: string)
    requires find != "" && |put| <= |find|
    ensures |ReplaceAll(s, find, put)| <= |s|
    decreases |s|
  {
    if s != "" {
      if find <= s {
        ReplacingDoesNotGrow(s[|find|..], find, put);
      } else {
        ReplacingDoesNotGrow(s[1..], find, put);
      }
    }
  }

  // ----- When renaming a module path twice changes nothing -----

  lemma PlainStartHasNoMappedPrefix(v: string)
    requires PlainStart(v)
    ensures !HasMappedPrefix(v)
  {
    StartsDiffer("key_value.aio", v, 0);
    StartsDiffer("pymongo.asynchronous", v, 0);
    var i := if v[0] == 't' then 1 else 0;
    StartsDiffer("tests.stores.conftest", v, i);
    StartsDiffer("tests.conftest", v, i);
    StartsDiffer("tests.cases", v, i);
    StartsDiffer("tests.stores.base", v, i);
  }

  lemma NotAName(r: string)
    requires r != "" && r[0] != 'A' && r[0] != 'a' && r[0] != '_' && r[0] != 'r' && r[0] != 'g'
    ensures r !in NAMES
  {
    StartsDiffer("Async", r, 0);
    StartsDiffer("async", r, 0);
    StartsDiffer("__a", r, 0);
    assert "redis.asyncio"[0] == 'r' && "asleep"[0] == 'a' && "glide.glide_client"[0] == 'g';
    if r in NAMES {
      KeysLookAsync(r);
    }
  }

  /** A path that starts like a replacement for tests is not mapped again. */
  lemma TestsPathsAreFinal(r: string)
    requires "tests.code_gen" <= r
    ensures r !in NAMES && !HasMappedPrefix(r)
  {
    assert r[..14] == "tests.code_gen";
    assert r[0] == 't' && r[6] == 'c' && r[7] == 'o' && r[8] == 'd';
    NotAName(r);
    StartsDiffer("key_value.aio", r, 0);
    StartsDiffer("pymongo.asynchronous", r, 0);
    StartsDiffer("tests.stores.conftest", r, 6);
    StartsDiffer("tests.stores.base", r, 6);
    StartsDiffer("tests.conftest", r, 8);
    StartsDiffer("tests.cases", r, 7);
  }

  /** Nor is one that starts like the replacement for key_value.aio. */
  lemma SyncPathsAreFinal(r: string)
    requires "key_value.sync" <= r
    ensures r !in NAMES && !HasMappedPrefix(r)
  {
    assert r[..14] == "key_value.sync";
    assert r[0] == 'k' && r[10] == 's';
    NotAName(r);
    StartsDiffer("key_value.aio", r, 10);
    StartsDiffer("pymongo.asynchronous", r, 0);
    StartsDiffer("tests.stores.conftest", r, 0);
    StartsDiffer("tests.stores.base", r, 0);
    StartsDiffer("tests.conftest", r, 0);
    StartsDiffer("tests.cases", r, 0);
  }

  lemma PrefixAppend(a: string, b: string, c: string)
    ensures a + b <= a + c <==> b <= c
  {
    if a + b <= a + c {
      assert (a + c)[..|a + b|] == a + b;
      assert b == (a + b)[|a|..] && c[..|b|] == (a + c)[|a|..|a| + |b|];
    }
  }

  lemma PrefixTransitive(a: string, b: string, c: string)
    requires a <= b && b <= c
    ensures a <= c
  {
  }

  /** A path that starts with "pymongo" is no mapped name, and only pymongo.asynchronous is a
      mapped prefix of it. */
  lemma PymongoPath(r: string)
    requires "pymongo" <= r
    ensures r !in NAMES
    ensures HasMappedPrefix(r) <==> "pymongo.asynchronous" <= r
    ensures "pymongo.asynchronous" <= r ==> RenamePrefix(r) == ReplaceAll(r, "pymongo.asynchronous", "pymongo")
  {
    assert r[0] == "pymongo"[0];
    NotAName(r);
    StartsDiffer("key_value.aio", r, 0);
    StartsDiffer("tests.stores.conftest", r, 0);
    StartsDiffer("tests.stores.base", r, 0);
    StartsDiffer("tests.conftest", r, 0);
    StartsDiffer("tests.cases", r, 0);
  }

  lemma MongoSplit(m: string)
    requires "pymongo.asynchronous" <= m
    ensures "pymongo" <= m && m == "pymongo.asynchronous" + m[20..]
    ensures RenamePrefix(m) == "pymongo" + ReplaceAll(m[20..], "pymongo.asynchronous", "pymongo")
  {
    var find := "pymongo.asynchronous";
    assert |find| == 20 && m[..20] == find;
    MongoNames();
    PrefixTransitive("pymongo", find, m);
    PymongoPath(m);
    ReplacedStart(m, find, "pymongo");
  }

  lemma MongoShrinks(r: string)
    requires "pymongo.asynchronous" <= r
    ensures |RenamePrefix(r)| < |r|
  {
    MongoSplit(r);
    ReplacingDoesNotGrow(r[20..], "pymongo.asynchronous", "pymongo");
  }

  /** When `find` is `put` followed by a tail, replacing makes `find` appear at the start
      again exactly when the tail followed `find` to begin with. */
  lemma ReplacedStartsAgain(find: string, put: string, tail: string, rest: string)
    requires put != "" && find == put + tail && put[0] !in tail
    ensures find <= put + ReplaceAll(rest, find, put) <==> find + tail <= find + rest
  {
    PrefixSurvives(tail, rest, find, put);
    PrefixAppend(put, tail, ReplaceAll(rest, find, put));
    PrefixAppend(find, tail, rest);
  }

  lemma MongoNames()
    ensures "pymongo.asynchronous" == "pymongo" + ".asynchronous"
    ensures "pymongo.asynchronous.asynchronous" == "pymongo.asynchronous" + ".asynchronous"
    ensures "pymongo"[0] !in ".asynchronous"
  {
  }

  /** The replacement for pymongo.asynchronous is mapped again exactly when the path goes on
      with ".asynchronous". */
  lemma MongoPaths(m: string)
    requires "pymongo.asynchronous" <= m
    ensures "pymongo" <= m && "pymongo" <= RenamePrefix(m)
    ensures "pymongo.asynchronous" <= RenamePrefix(m) <==> "pymongo.asynchronous.asynchronous" <= m
  {
    MongoSplit(m);
    MongoNames();
    ReplacedStartsAgain("pymongo.asynchronous", "pymongo", ".asynchronous", m[20..]);
  }

  lemma PutFirst(m: string, find: string, put: string, start: string)
    requires find != "" && find <= m && start <= put
    ensures start <= ReplaceAll(m, find, put)
  {
    ReplacedStart(m, find, put);
    PrefixTransitive(start, put, put + ReplaceAll(m[|find|..], find, put));
  }

  lemma OtherPaths(m: string)
    requires m !in NAMES && !("pymongo.asynchronous" <= m)
    ensures RenamePrefix(m) !in NAMES && !HasMappedPrefix(RenamePrefix(m))
  {
    if "key_value.aio" <= m {
      PutFirst(m, "key_value.aio", "key_value.sync.code_gen", "key_value.sync");
      SyncPathsAreFinal(RenamePrefix(m));
    } else if "tests.stores.conftest" <= m {
      PutFirst(m, "tests.stores.conftest", "tests.code_gen.stores.conftest", "tests.code_gen");
      TestsPathsAreFinal(RenamePrefix(m));
    } else if "tests.conftest" <= m {
      PutFirst(m, "tests.conftest", "tests.code_gen.conftest", "tests.code_gen");
      TestsPathsAreFinal(RenamePrefix(m));
    } else if "tests.cases" <= m {
      PutFirst(m, "tests.cases", "tests.code_gen.cases", "tests.code_gen");
      TestsPathsAreFinal(RenamePrefix(m));
    } else if "tests.stores.base" <= m {
      PutFirst(m, "tests.stores.base", "tests.code_gen.stores.base", "tests.code_gen");
      TestsPathsAreFinal(RenamePrefix(m));
    }
  }

  predicate Unmapped(m: string) {
    m !in NAMES && !HasMappedPrefix(m)
  }

  lemma UnmappedIsFixed(m: string)
    requires Unmapped(m)
    ensures RenameModule(m) == m
  {
  }

  /** A renamed module path is no mapped name and has no mapped prefix, except for the paths
      that start with "pymongo.asynchronous.asynchronous": there the replacement lets the
      mapped prefix appear again. */
  lemma RenamedModuleUnmappedIff(m: string)
    ensures Unmapped(RenameModule(m)) <==> !("pymongo.asynchronous.asynchronous" <= m)
  {
    LongerMongoPrefix(m);
    if m in NAMES {
      ResultsStartPlain(m);
      PlainStartHasNoMappedPrefix(NAMES[m]);
      LookupIsIdempotent(m);
      UnmappedIsFixed(NAMES[m]);
    } else if "pymongo.asynchronous" <= m {
      MongoPaths(m);
      PymongoPath(RenamePrefix(m));
    } else {
      OtherPaths(m);
    }
  }

  /** Renaming a module path twice is renaming it once, except for the same paths. */
  lemma ModuleRenamingIdempotentIff(m: string)
    ensures RenameModule(RenameModule(m)) == RenameModule(m) <==> !("pymongo.asynchronous.asynchronous" <= m)
  {
    RenamedModuleUnmappedIff(m);
    if "pymongo.asynchronous.asynchronous" <= m {
      LongerMongoPrefix(m);
      MongoPaths(m);
      PymongoPath(RenamePrefix(m));
      MongoShrinks(RenamePrefix(m));
    } else {
      UnmappedIsFixed(RenameModule(m));
    }
  }

  lemma LongerMongoPrefix(m: string)
    ensures "pymongo.asynchronous.asynchronous" <= m ==> "pymongo.asynchronous" <= m && m !in NAMES
  {
    var long := "pymongo.asynchronous.asynchronous";
    assert long[..20] == "pymongo.asynchronous" && long[..7] == "pymongo";
    if long <= m {
      PrefixTransitive("pymongo.asynchronous", long, m);
      PrefixTransitive("pymongo", long, m);
      PymongoPath(m);
    }
  }

  // ----- From-imports -----

  /** Names whose import is dropped: they would eclipse builtins. */
  predicate Skipped(fromModule: string, name: string) {
    fromModule == "acompat" && (name == "alist" || name == "anext")
  }

  function KeepNames(fromModule: string, names: seq<Alias>): seq<Alias> {
    if names == [] then []
    else (if Skipped(fromModule, names[0].name) then [] else [names[0]]) + KeepNames(fromModule, names[1..])
  }

  function RenameAlias(a: Alias): Alias {
    Alias(Lookup(a.name), if a.asname.Some? && a.asname.value != "" then Some(Lookup(a.asname.value)) else a.asname)
  }

  function RenameAliases(names: seq<Alias>): (r: seq<Alias>)
    ensures |r| == |names| && forall i | 0 <= i < |names| :: r[i] == RenameAlias(names[i])
  {
    seq(|names|, i requires 0 <= i < |names| => RenameAlias(names[i]))
  }

  datatype ImportFrom = ImportFrom(fromModule: string, names: seq<Alias>)

  /** visit_ImportFrom; None when the statement is removed. A relative import without a module
      name has the empty module here. */
  function RenameImport(n: ImportFrom): Option<ImportFrom> {
    if n.fromModule == "" then Some(ImportFrom("", RenameAliases(n.names)))
    else
      var kept := KeepNames(n.fromModule, n.names);
      if n.fromModule == "acompat" && kept == [] then None
      else Some(ImportFrom(RenameModule(n.fromModule), RenameAliases(kept)))
  }

  lemma {:induction false} NothingSkipped(fromModule: string, names: seq<Alias>)
    ensures (forall i | 0 <= i < |names| :: !Skipped(fromModule, names[i].name))
      ==> KeepNames(fromModule, names) == names
  {
    if names != [] {
      NothingSkipped(fromModule, names[1..]);
    }
  }

  lemma {:induction false} KeptNotSkipped(fromModule: string, names: seq<Alias>)
    ensures forall i | 0 <= i < |KeepNames(fromModule, names)| ::
      !Skipped(fromModule, KeepNames(fromModule, names)[i].name)
  {
    if names != [] {
      KeptNotSkipped(fromModule, names[1..]);
    }
  }

  /** No name becomes one of those whose import is dropped. */
  lemma LookupSkipsNothingNew(name: string)
    ensures (Lookup(name) == "alist" || Lookup(name) == "anext") ==> Lookup(name) == name
  {
    if name in NAMES {
      ResultsStartPlain(name);
      assert "alist"[0] == 'a' && "anext"[0] == 'a';
    }
  }

  lemma RenameAliasesTwice(names: seq<Alias>)
    ensures RenameAliases(RenameAliases(names)) == RenameAliases(names)
  {
    forall i | 0 <= i < |names| ensures RenameAlias(RenameAlias(names[i])) == RenameAlias(names[i]) {
      LookupIsIdempotent(names[i].name);
      if names[i].asname.Some? {
        LookupIsIdempotent(names[i].asname.value);
        LookupNotEmpty(names[i].asname.value);
      }
    }
  }

  lemma LookupNotEmpty(name: string)
    ensures name != "" ==> Lookup(name) != ""
  {
    if name in NAMES {
      ResultsStartPlain(name);
    }
  }

  /** Only acompat itself is renamed to acompat. */
  lemma AcompatUnchanged(m: string)
    ensures RenameModule(m) == "acompat" <==> m == "acompat"
  {
    assert "acompat"[0] == 'a' && "acompat"[1] == 'c' && |"acompat"| == 7;
    if m in NAMES {
      ResultsStartPlain(m);
      PlainStartHasNoMappedPrefix(NAMES[m]);
      KeysLookAsync(m);
      StartsDiffer("async", "acompat", 1);
      StartsDiffer("Async", "acompat", 0);
      StartsDiffer("__a", "acompat", 0);
    } else if HasMappedPrefix(m) {
      RenamedPrefixStart(m);
      FirstLetterOfMapped(m);
    }
  }

  lemma FirstLetterOfMapped(m: string)
    requires HasMappedPrefix(m)
    ensures m != "" && m[0] != 'a'
  {
    if "key_value.aio" <= m {
      assert m[0] == "key_value.aio"[0];
    } else if "pymongo.asynchronous" <= m {
      assert m[0] == "pymongo.asynchronous"[0];
    } else if "tests.stores.conftest" <= m {
      assert m[0] == "tests.stores.conftest"[0];
    } else if "tests.conftest" <= m {
      assert m[0] == "tests.conftest"[0];
    } else if "tests.cases" <= m {
      assert m[0] == "tests.cases"[0];
    } else {
      assert m[0] == "tests.stores.base"[0];
    }
  }

  lemma RenamedPrefixStart(m: string)
    requires m !in NAMES && HasMappedPrefix(m)
    ensures RenamePrefix(m) != "" && RenamePrefix(m)[0] != 'a'
  {
    if "key_value.aio" <= m {
      ReplacedStart(m, "key_value.aio", "key_value.sync.code_gen");
    } else if "pymongo.asynchronous" <= m {
      ReplacedStart(m, "pymongo.asynchronous", "pymongo");
    } else if "tests.stores.conftest" <= m {
      ReplacedStart(m, "tests.stores.conftest", "tests.code_gen.stores.conftest");
    } else if "tests.conftest" <= m {
      ReplacedStart(m, "tests.conftest", "tests.code_gen.conftest");
    } else if "tests.cases" <= m {
      ReplacedStart(m, "tests.cases", "tests.code_gen.cases");
    } else {
      ReplacedStart(m, "tests.stores.base", "tests.code_gen.stores.base");
    }
  }

  lemma RenameModuleNotEmpty(m: string)
    requires m != ""
    ensures RenameModule(m) != ""
  {
    LookupNotEmpty(m);
    if m in NAMES {
      ResultsStartPlain(m);
      PlainStartHasNoMappedPrefix(NAMES[m]);
    } else if HasMappedPrefix(m) {
      RenamedPrefixStart(m);
    }
  }

  /** An import is dropped exactly when it takes only skipped names from acompat; of a kept one
      no name and no alias is mapped, and its module is not either, with the same exception. */
  lemma RenamedImports(n: ImportFrom)
    ensures RenameImport(n).None? <==>
      n.fromModule == "acompat" && forall i | 0 <= i < |n.names| :: Skipped("acompat", n.names[i].name)
    ensures RenameImport(n).Some? ==>
      var r := RenameImport(n).value;
      && (forall i | 0 <= i < |r.names| :: r.names[i].name !in NAMES)
      && (forall i | 0 <= i < |r.names| && r.names[i].asname.Some? :: r.names[i].asname.value !in NAMES)
      && (n.fromModule != "" && !("pymongo.asynchronous.asynchronous" <= n.fromModule) ==> Unmapped(r.fromModule))
  {
    EmptyIffAllSkipped(n.fromModule, n.names);
    RenamedModuleUnmappedIff(n.fromModule);
    if RenameImport(n).Some? {
      RenamedAliases(if n.fromModule == "" then n.names else KeepNames(n.fromModule, n.names));
    }
  }

  lemma RenamedAliases(names: seq<Alias>)
    ensures forall i | 0 <= i < |names| :: RenameAliases(names)[i].name !in NAMES
    ensures forall i | 0 <= i < |names| && RenameAliases(names)[i].asname.Some? ::
      RenameAliases(names)[i].asname.value !in NAMES
  {
    forall i | 0 <= i < |names|
      ensures RenameAlias(names[i]).name !in NAMES
      ensures RenameAlias(names[i]).asname.Some? ==> RenameAlias(names[i]).asname.value !in NAMES
    {
      LookupIsIdempotent(names[i].name);
      if names[i].asname.Some? {
        EmptyIsNoName();
        LookupIsIdempotent(names[i].asname.value);
      }
    }
  }

  lemma EmptyIsNoName()
    ensures "" !in NAMES
  {
    if "" in NAMES {
      KeysLookAsync("");
    }
  }

  lemma {:induction false} EmptyIffAllSkipped(fromModule: string, names: seq<Alias>)
    ensures KeepNames(fromModule, names) == [] <==> forall i | 0 <= i < |names| :: Skipped(fromModule, names[i].name)
  {
    if names != [] {
      EmptyIffAllSkipped(fromModule, names[1..]);
    }
  }

  /** An import that is kept and renamed twice is as if renamed once, unless its module is one
      of the paths for which renaming is not idempotent. */
  lemma ImportRenamingIdempotentIff(n: ImportFrom)
    requires RenameImport(n).Some?
    ensures RenameImport(RenameImport(n).value) == RenameImport(n)
       <==> !("pymongo.asynchronous.asynchronous" <= n.fromModule)
  {
    ModuleRenamingIdempotentIff(n.fromModule);
    if n.fromModule == "" {
      RenameAliasesTwice(n.names);
    } else {
      var kept := KeepNames(n.fromModule, n.names);
      RenameAliasesTwice(kept);
      RenameModuleNotEmpty(n.fromModule);
      AcompatUnchanged(n.fromModule);
      KeptNotSkipped(n.fromModule, n.names);
      forall i | 0 <= i < |kept| ensures !Skipped(RenameModule(n.fromModule), RenameAliases(kept)[i].name) {
        LookupSkipsNothingNew(kept[i].name);
      }
      NothingSkipped(RenameModule(n.fromModule), RenameAliases(kept));
    }
  }

  // ----- Expressions -----

  /** `AsyncGenerator[X, Y]` */
  predicate IsAsyncGenerator(e: Expr) {
    && e.Subscript? && e.container == Name("AsyncGenerator")
    && e.slice.Tuple? && |e.slice.elts| == 2
  }

  /** How many subscripts of that form the expression has. */
  function Generators(e: Expr): nat {
    match e
    case Name(_) => 0
    case Constant(_) => 0
    case Attribute(o, _) => Generators(o)
    case Call(f, args) => Generators(f) + GeneratorsIn(args)
    case BinOp(l, _, r) => Generators(l) + Generators(r)
    case Subscript(c, s) => (if IsAsyncGenerator(e) then 1 else 0) + Generators(c) + Generators(s)
    case Tuple(elts) => GeneratorsIn(elts)
    case Comprehension(elt, _, iter, _) => Generators(elt) + Generators(iter)
    case Await(v) => Generators(v)
  }

  function GeneratorsIn(es: seq<Expr>): nat {
    if es == [] then 0 else Generators(es[0]) + GeneratorsIn(es[1..])
  }

  lemma LookupNeverAsyncGenerator(name: string)
    ensures Lookup(name) != "AsyncGenerator"
  {
    LookupIsIdempotent(name);
    assert "AsyncGenerator" in NAMES_4;
    assert "AsyncGenerator" in NAMES;
  }

  lemma GeneratorParts(x: Expr, y: Expr)
    ensures GeneratorsIn([x, y]) == Generators(x) + Generators(y)
  {
    assert [x, y][1..] == [y] && [y][1..] == [];
    assert GeneratorsIn([y]) == Generators(y) + GeneratorsIn([]);
  }

  lemma NoGeneratorsInThree(x: Expr, y: Expr, z: Expr)
    requires Generators(x) == 0 && Generators(y) == 0 && Generators(z) == 0
    ensures GeneratorsIn([x, y, z]) == 0
  {
    assert [x, y, z][1..] == [y, z];
    GeneratorParts(y, z);
  }

  /** What the visit makes of an expression. For AsyncGenerator[X, Y] the second argument is
      copied in before the children are visited, and they are visited twice. */
  function Rename(e: Expr): (r: Expr)
    ensures Generators(r) == 0 && r != Name("AsyncGenerator")
    decreases Generators(e), e, 1
  {
    match e
    case Name(id) =>
      LookupNeverAsyncGenerator(id);
      Name(Lookup(id))
    case Constant(_) => e
    case Attribute(o, a) => Attribute(Rename(o), Lookup(a))
    case Call(f, args) => Expr.Call(Rename(f), RenameEach(args))
    case BinOp(l, op, r) => BinOp(Rename(l), op, Rename(r))
    case Subscript(c, s) =>
      if !IsAsyncGenerator(e) then Subscript(Rename(c), Rename(s))
      else
        var x, y := s.elts[0], s.elts[1];
        assert s.elts == [x, y];
        GeneratorParts(x, y);
        NoGeneratorsInThree(Rename(Rename(x)), Rename(Rename(y)), Rename(Rename(y)));
        Subscript(Rename(Rename(c)), Tuple([Rename(Rename(x)), Rename(Rename(y)), Rename(Rename(y))]))
    case Tuple(elts) => Tuple(RenameEach(elts))
    case Comprehension(elt, t, iter, isAsync) => Comprehension(Rename(elt), Lookup(t), Rename(iter), isAsync)
    case Await(v) => Await(Rename(v))
  }

  function RenameEach(es: seq<Expr>): (r: seq<Expr>)
    ensures GeneratorsIn(r) == 0 && |r| == |es|
    decreases GeneratorsIn(es), es, 0
  {
    if es == [] then []
    else
      var r := [Rename(es[0])] + RenameEach(es[1..]);
      assert r[1..] == RenameEach(es[1..]);
      r
  }

  /** Renaming twice is renaming once, on every expression. */
  lemma {:induction false} RenamingIsIdempotent(e: Expr)
    ensures Rename(Rename(e)) == Rename(e)
    decreases Generators(e), e, 1
  {
    match e
    case Name(id) => LookupIsIdempotent(id);
    case Constant(_) =>
    case Attribute(o, a) => RenamingIsIdempotent(o); LookupIsIdempotent(a);
    case Call(f, args) => RenamingIsIdempotent(f); RenamingEachIsIdempotent(args);
    case BinOp(l, _, r) => RenamingIsIdempotent(l); RenamingIsIdempotent(r);
    case Subscript(c, s) =>
      if IsAsyncGenerator(e) {
        GeneratorGetsOneArgument(e);
      } else {
        RenamingIsIdempotent(c);
        RenamingIsIdempotent(s);
      }
    case Tuple(elts) => RenamingEachIsIdempotent(elts);
    case Comprehension(elt, t, iter, _) =>
      RenamingIsIdempotent(elt);
      RenamingIsIdempotent(iter);
      LookupIsIdempotent(t);
    case Await(v) => RenamingIsIdempotent(v);
  }

  lemma {:induction false} RenamingEachIsIdempotent(es: seq<Expr>)
    ensures RenameEach(RenameEach(es)) == RenameEach(es)
    decreases GeneratorsIn(es), es, 0
  {
    if es != [] {
      RenamingIsIdempotent(es[0]);
      RenamingEachIsIdempotent(es[1..]);
      assert RenameEach(es)[1..] == RenameEach(es[1..]);
    }
  }

  lemma RenameThree(x: Expr, y: Expr, z: Expr)
    ensures RenameEach([x, y, z]) == [Rename(x), Rename(y), Rename(z)]
  {
    assert [x, y, z][1..] == [y, z] && [y, z][1..] == [z] && [z][1..] == [];
    assert RenameEach([z]) == [Rename(z)] + RenameEach([]);
    assert RenameEach([y, z]) == [Rename(y)] + RenameEach([z]);
  }

  /** Although its children are visited twice, AsyncGenerator[X, Y], nested or not, becomes
      Generator with exactly one argument more, a copy of the second: Generator[X, Y, Y]. A
      further visit changes nothing. */
  lemma {:induction false} GeneratorGetsOneArgument(e: Expr)
    requires IsAsyncGenerator(e)
    ensures
      var x, y := e.slice.elts[0], e.slice.elts[1];
      Rename(e) == Subscript(Name("Generator"), Tuple([Rename(x), Rename(y), Rename(y)]))
    ensures Rename(Rename(e)) == Rename(e)
    decreases Generators(e), e, 0
  {
    var x, y := e.slice.elts[0], e.slice.elts[1];
    assert e.slice.elts == [x, y];
    GeneratorParts(x, y);
    assert Generators(e.slice) == Generators(x) + Generators(y);
    assert Generators(e) == 1 + Generators(e.container) + Generators(e.slice);
    RenamingIsIdempotent(x);
    RenamingIsIdempotent(y);
    GeneratorName();
    var r := Subscript(Name("Generator"), Tuple([Rename(x), Rename(y), Rename(y)]));
    assert Rename(e) == r;
    RenameThree(Rename(x), Rename(y), Rename(y));
    assert Rename(Name("Generator")) == Name("Generator");
    assert Rename(r.slice) == r.slice;
  }

  lemma GeneratorName()
    ensures Lookup("AsyncGenerator") == "Generator" && Lookup("Generator") == "Generator"
  {
    assert "AsyncGenerator" in NAMES_4 && NAMES_4["AsyncGenerator"] == "Generator";
    assert NAMES["AsyncGenerator"] == "Generator";
    LookupIsIdempotent("AsyncGenerator");
  }
}
