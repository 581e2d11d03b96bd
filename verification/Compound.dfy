/** key_value/shared/utils/compound.py: joining names with a separator, and taking the joined
    names apart again. */
module Compounds {
  import opened Prelude

  const DEFAULT_COMPOUND_SEPARATOR := "::"
  const DEFAULT_PREFIX_SEPARATOR := "__"

  /** `separator or default`: never empty when the default is not. */
  function SeparatorOr(separator: Option<string>, default: string): string {
    if separator.None? || separator.value == "" then default else separator.value
  }

  // ----- Joining -----

  function CompoundString(first: string, second: string, separator: Option<string>): string {
    first + SeparatorOr(separator, DEFAULT_COMPOUND_SEPARATOR) + second
  }

  function CompoundKey(collection: string, key: string, separator: Option<string>): string {
    CompoundString(collection, key, Some(SeparatorOr(separator, DEFAULT_COMPOUND_SEPARATOR)))
  }

  function PrefixKey(key: string, prefix: string, separator: Option<string>): string {
    CompoundString(prefix, key, Some(SeparatorOr(separator, DEFAULT_PREFIX_SEPARATOR)))
  }

  // ----- Taking apart -----

  predicate OccursAt(s: string, sub: string, i: int) {
    0 <= i <= |s| - |sub| && s[i..i + |sub|] == sub
  }

  /** `sub in s` */
  predicate Occurs(s: string, sub: string) {
    exists i | 0 <= i <= |s| - |sub| :: OccursAt(s, sub, i)
  }

  /** The leftmost occurrence at or after i. */
  function Find(s: string, sub: string, i: nat): (r: Option<nat>)
    requires i <= |s|
    ensures r.None? ==> forall j :: i <= j ==> !OccursAt(s, sub, j)
    ensures r.Some? ==> i <= r.value && OccursAt(s, sub, r.value) && forall j :: i <= j < r.value ==> !OccursAt(s, sub, j)
    decreases |s| - i
  {
    if OccursAt(s, sub, i) then Some(i)
    else if i == |s| then None
    else Find(s, sub, i + 1)
  }

  /** `s.split(separator, 1)` */
  function SplitOnce(s: string, separator: string): seq<string> {
    match Find(s, separator, 0)
    case None => [s]
    case Some(i) => [s[..i], s[i + |separator|..]]
  }

  function UncompoundString(s: string, separator: Option<string>): Result<(string, string)> {
    var sep := SeparatorOr(separator, DEFAULT_COMPOUND_SEPARATOR);
    if !Occurs(s, sep) then Err(NotCompound)
    else
      var parts := SplitOnce(s, sep);
      if |parts| != 2 then Err(NotCompound)
      else Ok((parts[0], parts[1]))
  }

  function UnprefixKey(key: string, prefix: string, separator: Option<string>): Result<string> {
    var start := prefix + SeparatorOr(separator, DEFAULT_PREFIX_SEPARATOR);
    if start <= key then Ok(key[|start|..]) else Err(NotPrefixed)
  }

  /** `uncompound_strings`: the first string that is not compound raises. */
  function UncompoundStrings(strings: seq<string>, separator: Option<string>): Result<seq<(string, string)>> {
    if strings == [] then Ok([])
    else
      match UncompoundString(strings[0], separator)
      case Err(e) => Err(e)
      case Ok(pair) =>
        match UncompoundStrings(strings[1..], separator)
        case Err(e) => Err(e)
        case Ok(rest) => Ok([pair] + rest)
  }

  /** The second parts of the pairs whose first part is `collection`. */
  function KeysIn(pairs: seq<(string, string)>, collection: string): seq<string> {
    if pairs == [] then []
    else (if pairs[0].0 == collection then [pairs[0].1] else []) + KeysIn(pairs[1..], collection)
  }

  function GetKeysFromCompoundKeys(compoundKeys: seq<string>, collection: string, separator: Option<string>)
    : Result<seq<string>>
  {
    match UncompoundStrings(compoundKeys, Some(SeparatorOr(separator, DEFAULT_COMPOUND_SEPARATOR)))
    case Err(e) => Err(e)
    case Ok(pairs) => Ok(KeysIn(pairs, collection))
  }

  /** The source returns the members of this set as a list, in no particular order. */
  function GetCollectionsFromCompoundKeys(compoundKeys: seq<string>, separator: Option<string>)
    : Result<set<string>>
  {
    match UncompoundStrings(compoundKeys, Some(SeparatorOr(separator, DEFAULT_COMPOUND_SEPARATOR)))
    case Err(e) => Err(e)
    case Ok(pairs) => Ok(set i | 0 <= i < |pairs| :: pairs[i].0)
  }

  // ----- Splitting undoes joining -----

  /** The separator does not show up early when `first` is followed by it: neither inside
      `first` nor across its end. */
  predicate Separable(first: string, sep: string)
    requires sep != ""
  {
    !Occurs(first + sep[..|sep| - 1], sep)
  }

  /** An occurrence that starts inside `first` lies within `first` and all but the last
      character of the separator that follows, and so depends on nothing after them. */
  lemma EarlyOccurrence(first: string, sep: string, second: string, i: int)
    requires sep != "" && i < |first|
    ensures OccursAt(first + sep + second, sep, i) <==> OccursAt(first + sep[..|sep| - 1], sep, i)
  {
    var whole, early := first + sep + second, first + sep[..|sep| - 1];
    if 0 <= i {
      assert i + |sep| <= |early|;
      assert whole[..|early|] == early;
      assert whole[i..i + |sep|] == early[i..i + |sep|];
    }
  }

  lemma SplitAtFirst(first: string, sep: string, second: string)
    requires sep != ""
    ensures Separable(first, sep) <==> Find(first + sep + second, sep, 0) == Some(|first|)
  {
    var whole := first + sep + second;
    assert whole[|first|..|first| + |sep|] == sep;
    assert OccursAt(whole, sep, |first|);
    forall i | 0 <= i < |first| {
      EarlyOccurrence(first, sep, second, i);
    }
    if !Separable(first, sep) {
      var i :| 0 <= i <= |first + sep[..|sep| - 1]| - |sep| && OccursAt(first + sep[..|sep| - 1], sep, i);
      assert OccursAt(whole, sep, i);
    }
  }

  /** Splitting undoes joining exactly when the separator does not occur in `first` followed
      by all but the last character of the separator, whatever the key is. */
  lemma SplitUndoesJoin(first: string, second: string, separator: Option<string>)
    ensures UncompoundString(CompoundString(first, second, separator), separator) == Ok((first, second))
       <==> Separable(first, SeparatorOr(separator, DEFAULT_COMPOUND_SEPARATOR))
  {
    var sep := SeparatorOr(separator, DEFAULT_COMPOUND_SEPARATOR);
    var whole := first + sep + second;
    SplitAtFirst(first, sep, second);
    assert OccursAt(whole, sep, |first|);
    var i := Find(whole, sep, 0).value;
    assert whole[..|first|] == first && whole[|first| + |sep|..] == second;
    assert |whole[..i]| == i;
  }

  /** For the default separator: the collection name neither contains "::" nor ends in ":". */
  lemma DefaultSeparable(collection: string)
    ensures Separable(collection, "::")
       <==> !Occurs(collection, "::") && !(collection != "" && collection[|collection| - 1] == ':')
  {
    var early := collection + "::"[..1];
    assert early == collection + ":";
    forall i | 0 <= i <= |collection| - 2 ensures OccursAt(early, "::", i) <==> OccursAt(collection, "::", i) {
      assert early[i..i + 2] == collection[i..i + 2];
    }
    if collection != "" {
      var n := |collection| - 1;
      assert early[n..n + 2] == [collection[n], ':'];
      assert OccursAt(early, "::", n) <==> collection[n] == ':';
    }
  }

  /** Joining undoes splitting, for every string that contains the separator; those are exactly
      the strings that split, so the test for two parts never fails. The first part is then
      separable. */
  lemma JoinUndoesSplit(s: string, separator: Option<string>)
    ensures
      var sep := SeparatorOr(separator, DEFAULT_COMPOUND_SEPARATOR);
      && (UncompoundString(s, separator).Ok? <==> Occurs(s, sep))
      && (Occurs(s, sep) ==>
            var (first, second) := UncompoundString(s, separator).value;
            && CompoundString(first, second, separator) == s
            && |SplitOnce(s, sep)| == 2
            && Separable(first, sep))
  {
    var sep := SeparatorOr(separator, DEFAULT_COMPOUND_SEPARATOR);
    if Occurs(s, sep) {
      var i := Find(s, sep, 0).value;
      assert s == s[..i] + sep + s[i + |sep|..];
      SplitAtFirst(s[..i], sep, s[i + |sep|..]);
    }
  }

  /** A name that is not separable shares its joined keys with a shorter one that is. */
  lemma InseparableNamesCollide(first: string, second: string, separator: Option<string>)
    requires !Separable(first, SeparatorOr(separator, DEFAULT_COMPOUND_SEPARATOR))
    ensures exists first', second' ::
      && |first'| < |first| && Separable(first', SeparatorOr(separator, DEFAULT_COMPOUND_SEPARATOR))
      && CompoundString(first', second', separator) == CompoundString(first, second, separator)
  {
    var sep := SeparatorOr(separator, DEFAULT_COMPOUND_SEPARATOR);
    var whole := CompoundString(first, second, separator);
    assert OccursAt(whole, sep, |first|);
    JoinUndoesSplit(whole, separator);
    SplitAtFirst(first, sep, second);
    var (first', second') := UncompoundString(whole, separator).value;
    assert CompoundString(first', second', separator) == whole;
  }

  // ----- Prefixes -----

  lemma UnprefixUndoesPrefix(key: string, prefix: string, separator: Option<string>)
    ensures UnprefixKey(PrefixKey(key, prefix, separator), prefix, separator) == Ok(key)
  {
    var start := prefix + SeparatorOr(separator, DEFAULT_PREFIX_SEPARATOR);
    assert PrefixKey(key, prefix, separator) == start + key;
    assert (start + key)[|start|..] == key;
  }

  /** Unprefixing succeeds exactly on prefixed keys, and prefixing undoes it. */
  lemma PrefixUndoesUnprefix(key: string, prefix: string, separator: Option<string>)
    ensures UnprefixKey(key, prefix, separator).Ok? <==> exists k :: key == PrefixKey(k, prefix, separator)
    ensures
      var r := UnprefixKey(key, prefix, separator);
      r.Ok? ==> PrefixKey(r.value, prefix, separator) == key
  {
    var start := prefix + SeparatorOr(separator, DEFAULT_PREFIX_SEPARATOR);
    if start <= key {
      assert key == start + key[|start|..] == PrefixKey(key[|start|..], prefix, separator);
    }
    if k :| key == PrefixKey(k, prefix, separator) {
      UnprefixUndoesPrefix(k, prefix, separator);
    }
  }

  /** Neither of the two starts the other. */
  predicate Apart(p: string, q: string) {
    !(p <= q) && !(q <= p)
  }

  /** Two prefixes, each followed by its separator, share no key exactly when neither starts
      the other. */
  lemma PrefixesDisjoint(prefix1: string, prefix2: string, separator: Option<string>)
    ensures
      var sep := SeparatorOr(separator, DEFAULT_PREFIX_SEPARATOR);
      (forall k1, k2 :: PrefixKey(k1, prefix1, separator) != PrefixKey(k2, prefix2, separator))
      <==> Apart(prefix1 + sep, prefix2 + sep)
  {
    var sep := SeparatorOr(separator, DEFAULT_PREFIX_SEPARATOR);
    var p, q := prefix1 + sep, prefix2 + sep;
    if p <= q {
      assert PrefixKey(q[|p|..], prefix1, separator) == q == PrefixKey("", prefix2, separator);
    } else if q <= p {
      assert PrefixKey("", prefix1, separator) == p == PrefixKey(p[|q|..], prefix2, separator);
    } else {
      forall k1, k2 ensures PrefixKey(k1, prefix1, separator) != PrefixKey(k2, prefix2, separator) {
        ApartStaysApart(p, q, k1, k2);
      }
    }
  }

  /** Strings that differ at a position they both have go on differing. */
  lemma ApartStaysApart(p: string, q: string, k1: string, k2: string)
    requires Apart(p, q)
    ensures p + k1 != q + k2
  {
    var i :| 0 <= i < |p| && i < |q| && p[i] != q[i];
    assert (p + k1)[i] == p[i] && (q + k2)[i] == q[i];
  }
}
