/** What RenameAsyncToSync makes of a from-import, name by name, and of a module path, piece by piece. */
module ImportLaws {
  import opened PythonAst
  import opened RenameAsyncToSync

  // ----- Names and aliases -----

  /** The names that hide builtins. */
  predicate HidesBuiltin(fromModule: string, name: string) {
    fromModule == "acompat" && name in ["alist", "anext"]
  }

  /** How many of the names do not. */
  function Others(fromModule: string, names: seq<Alias>): nat {
    if names == [] then 0
    else Others(fromModule, names[..|names| - 1])
         + if HidesBuiltin(fromModule, names[|names| - 1].name) then 0 else 1
  }

  lemma {:induction false} KeepNamesAtEnd(fromModule: string, names: seq<Alias>, a: Alias)
    ensures KeepNames(fromModule, names + [a])
         == KeepNames(fromModule, names) + if HidesBuiltin(fromModule, a.name) then [] else [a]
  {
    if names != [] {
      assert (names + [a])[1..] == names[1..] + [a];
      KeepNamesAtEnd(fromModule, names[1..], a);
    }
  }

  lemma {:induction false} KeptInOrder(fromModule: string, names: seq<Alias>)
    ensures |KeepNames(fromModule, names)| == Others(fromModule, names)
    ensures forall i | 0 <= i < |names| && !HidesBuiltin(fromModule, names[i].name) ::
      && Others(fromModule, names[..i]) < Others(fromModule, names)
      && KeepNames(fromModule, names)[Others(fromModule, names[..i])] == names[i]
  {
    if names != [] {
      var n := |names| - 1;
      assert names == names[..n] + [names[n]];
      KeptInOrder(fromModule, names[..n]);
      KeepNamesAtEnd(fromModule, names[..n], names[n]);
      forall i | 0 <= i < n ensures names[..n][..i] == names[..i] {
      }
    }
  }

  /** `names_map` applied: a mapped name becomes its value and any other name stays. */
  predicate MapsTo(name: string, r: string) {
    if name in NAMES then r == NAMES[name] else r == name
  }

  predicate AliasMapsTo(a: Alias, r: Alias) {
    && MapsTo(a.name, r.name)
    && match a.asname
       case None => r.asname.None?
       case Some(x) => r.asname.Some? && MapsTo(x, r.asname.value)
  }

  /** A kept import has the names of the original that hide no builtin, each in its place among
      them, mapped and with its alias mapped; nothing is added. */
  lemma ImportedNames(n: ImportFrom)
    requires RenameImport(n).Some?
    ensures
      var r := RenameImport(n).value;
      && |r.names| == Others(n.fromModule, n.names)
      && forall i | 0 <= i < |n.names| && !HidesBuiltin(n.fromModule, n.names[i].name) ::
        && Others(n.fromModule, n.names[..i]) < |r.names|
        && AliasMapsTo(n.names[i], r.names[Others(n.fromModule, n.names[..i])])
  {
    KeptInOrder(n.fromModule, n.names);
    NothingSkipped(n.fromModule, n.names);
    forall i | 0 <= i < |n.names| ensures AliasMapsTo(n.names[i], RenameAlias(n.names[i])) {
      AliasIsMapped(n.names[i]);
    }
    var r := RenameImport(n).value;
    var kept := KeepNames(n.fromModule, n.names);
    assert r.names == RenameAliases(kept);
    forall i | 0 <= i < |n.names| && !HidesBuiltin(n.fromModule, n.names[i].name)
      ensures r.names[Others(n.fromModule, n.names[..i])] == RenameAlias(n.names[i])
    {
    }
  }

  lemma AliasIsMapped(a: Alias)
    ensures AliasMapsTo(a, RenameAlias(a))
  {
    EmptyIsNoName();
  }

  // ----- Module paths -----

  /** The parts with `sep` between any two of them. */
  function Joined(parts: seq<string>, sep: string): string
    requires parts != []
  {
    if |parts| == 1 then parts[0] else parts[0] + sep + Joined(parts[1..], sep)
  }

  /** With `find` after it, the part has it there for the first time. */
  ghost predicate EndsAtFirst(part: string, find: string) {
    forall j | 0 <= j < |part| :: !(find <= (part + find)[j..])
  }

  ghost predicate Lacks(part: string, find: string) {
    forall j | 0 <= j <= |part| :: !(find <= part[j..])
  }

  /** The pieces of a string between the occurrences of `find`, found from the left. */
  ghost predicate Pieces(parts: seq<string>, find: string) {
    && parts != [] && Lacks(parts[|parts| - 1], find)
    && forall i | 0 <= i < |parts| - 1 :: EndsAtFirst(parts[i], find)
  }

  lemma {:induction false} ReplacedPart(part: string, find: string, put: string, rest: string)
    requires find != "" && EndsAtFirst(part, find)
    ensures ReplaceAll(part + find + rest, find, put) == part + put + ReplaceAll(rest, find, put)
  {
    if part == "" {
      assert "" + find + rest == find + rest && (find + rest)[|find|..] == rest;
    } else {
      var s := part + find + rest;
      assert s[1..] == part[1..] + find + rest;
      assert (part + find)[0..] == part + find;
      NotAPrefix(find, part + find, rest);
      forall j | 0 <= j < |part| - 1 ensures !(find <= (part[1..] + find)[j..]) {
        assert (part[1..] + find)[j..] == (part + find)[j + 1..];
      }
      ReplacedPart(part[1..], find, put, rest);
    }
  }

  lemma NotAPrefix(find: string, s: string, rest: string)
    requires |find| <= |s|
    ensures find <= s + rest <==> find <= s
  {
    assert (s + rest)[..|find|] == s[..|find|];
  }

  lemma {:induction false} NothingReplaced(s: string, find: string, put: string)
    requires find != "" && Lacks(s, find)
    ensures ReplaceAll(s, find, put) == s
  {
    if s != "" {
      assert s[0..] == s;
      forall j | 0 <= j <= |s| - 1 ensures !(find <= s[1..][j..]) {
        assert s[1..][j..] == s[j + 1..];
      }
      NothingReplaced(s[1..], find, put);
    }
  }

  /** Replacing puts `put` where `find` was, between the same pieces. */
  lemma {:induction false} ReplacedPieces(parts: seq<string>, find: string, put: string)
    requires find != "" && Pieces(parts, find)
    ensures ReplaceAll(Joined(parts, find), find, put) == Joined(parts, put)
  {
    if |parts| == 1 {
      NothingReplaced(parts[0], find, put);
    } else {
      assert EndsAtFirst(parts[0], find);
      ReplacedPart(parts[0], find, put, Joined(parts[1..], find));
      ReplacedPieces(parts[1..], find, put);
    }
  }

  /** Every string has such pieces. */
  lemma {:induction false} PiecesOf(s: string, find: string) returns (parts: seq<string>)
    requires find != ""
    ensures Pieces(parts, find) && Joined(parts, find) == s
    decreases |s|
  {
    if s == "" {
      parts := [""];
    } else if find <= s {
      var rest := PiecesOf(s[|find|..], find);
      parts := [""] + rest;
      assert s == "" + find + s[|find|..] && parts[1..] == rest;
    } else {
      var rest := PiecesOf(s[1..], find);
      parts := [[s[0]] + rest[0]] + rest[1..];
      PrependToPieces(s[0], rest, find);
    }
  }

  lemma PrependToPieces(c: char, rest: seq<string>, find: string)
    requires find != "" && Pieces(rest, find) && !(find <= [c] + Joined(rest, find))
    ensures
      var parts := [[c] + rest[0]] + rest[1..];
      Pieces(parts, find) && Joined(parts, find) == [c] + Joined(rest, find)
  {
    var parts := [[c] + rest[0]] + rest[1..];
    assert forall i | 0 < i < |parts| :: parts[i] == rest[i];
    if |rest| == 1 {
      forall j | 0 <= j <= |parts[0]| ensures !(find <= parts[0][j..]) {
        if j > 0 {
          assert parts[0][j..] == rest[0][j - 1..];
        }
      }
    } else {
      assert EndsAtFirst(rest[0], find);
      assert [c] + Joined(rest, find) == parts[0] + find + Joined(rest[1..], find);
      NotAPrefix(find, parts[0] + find, Joined(rest[1..], find));
      forall j | 0 <= j < |parts[0]| ensures !(find <= (parts[0] + find)[j..]) {
        if j > 0 {
          assert (parts[0] + find)[j..] == (rest[0] + find)[j - 1..];
        }
      }
      assert EndsAtFirst(parts[0], find);
      assert forall i | 0 <= i < |parts| - 1 :: EndsAtFirst(parts[i], find);
    }
  }

  /** `module_map` has the pair. */
  predicate IsModulePair(find: string, put: string) {
    || (find == "key_value.aio" && put == "key_value.sync.code_gen")
    || (find == "pymongo.asynchronous" && put == "pymongo")
    || (find == "tests.stores.conftest" && put == "tests.code_gen.stores.conftest")
    || (find == "tests.conftest" && put == "tests.code_gen.conftest")
    || (find == "tests.cases" && put == "tests.code_gen.cases")
    || (find == "tests.stores.base" && put == "tests.code_gen.stores.base")
  }

  /** An import that is kept has its module path renamed, if it has one. */
  lemma ImportedModule(n: ImportFrom)
    requires RenameImport(n).Some?
    ensures RenameImport(n).value.fromModule == RenameModule(n.fromModule)
  {
    EmptyIsNoName();
    if n.fromModule == "" {
      StartsOfEmpty();
    }
  }

  lemma StartsOfEmpty()
    ensures !HasMappedPrefix("")
  {
  }

  /** A path that starts with the first half of a pair gets the second half wherever the first one
      occurs in it. */
  lemma ModulePieces(m: string, find: string, put: string, parts: seq<string>)
    requires IsModulePair(find, put) && find <= m
    requires Pieces(parts, find) && Joined(parts, find) == m
    ensures RenameModule(m) == Joined(parts, put)
  {
    ReplacedPieces(parts, find, put);
    assert m[0] == find[0];
    NotAName(m);
    OnePairFits(m, find, put);
  }

  lemma OnePairFits(m: string, find: string, put: string)
    requires IsModulePair(find, put) && find <= m
    ensures RenamePrefix(m) == ReplaceAll(m, find, put)
  {
    assert m[0] == find[0];
    if find[0] == 't' {
      StartsDiffer("key_value.aio", m, 0);
      StartsDiffer("pymongo.asynchronous", m, 0);
      TestsPairFits(m, find, put);
    } else if find[0] == 'p' {
      StartsDiffer("key_value.aio", m, 0);
    }
  }

  lemma TestsPairFits(m: string, find: string, put: string)
    requires IsModulePair(find, put) && find[0] == 't' && find <= m
    requires !("key_value.aio" <= m) && !("pymongo.asynchronous" <= m)
    ensures RenamePrefix(m) == ReplaceAll(m, find, put)
  {
    assert m[6] == find[6] && m[7] == find[7];
    if find == "tests.stores.base" {
      assert m[13] == find[13];
      StartsDiffer("tests.stores.conftest", m, 13);
      StartsDiffer("tests.conftest", m, 6);
      StartsDiffer("tests.cases", m, 6);
    } else if find == "tests.cases" {
      StartsDiffer("tests.stores.conftest", m, 6);
      StartsDiffer("tests.conftest", m, 7);
    } else if find == "tests.conftest" {
      StartsDiffer("tests.stores.conftest", m, 6);
    }
  }

  /** Any other path stays as it is, unless it is a mapped name. */
  lemma OtherModules(m: string)
    requires forall find, put | IsModulePair(find, put) :: !(find <= m)
    ensures MapsTo(m, RenameModule(m))
  {
    if m in NAMES {
      ResultsStartPlain(m);
      PlainStartHasNoMappedPrefix(NAMES[m]);
    } else {
      NoPairFits(m);
      UnmappedIsFixed(m);
    }
  }

  lemma NoPairFits(m: string)
    requires forall find, put | IsModulePair(find, put) :: !(find <= m)
    ensures !HasMappedPrefix(m)
  {
    assert IsModulePair("key_value.aio", "key_value.sync.code_gen");
    assert IsModulePair("pymongo.asynchronous", "pymongo");
    assert IsModulePair("tests.stores.conftest", "tests.code_gen.stores.conftest");
    assert IsModulePair("tests.conftest", "tests.code_gen.conftest");
    assert IsModulePair("tests.cases", "tests.code_gen.cases");
    assert IsModulePair("tests.stores.base", "tests.code_gen.stores.base");
  }
}
