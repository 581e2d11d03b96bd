/** key_value/shared/utils/sanitize.py: names made of allowed characters, kept short and kept
    apart by a fragment of a hash. */
module Sanitizer {
  import opened Prelude

  const MINIMUM_MAX_LENGTH := 16

  // ----- Replacing characters -----

  /** The string without its leading run of disallowed characters. */
  function AfterRun(s: string, allowed: string): (rest: string)
    ensures |rest| <= |s|
    ensures s != "" && s[0] !in allowed ==> |rest| < |s|
  {
    if s == "" || s[0] in allowed then s else AfterRun(s[1..], allowed)
  }

  /** Allowed characters stay, each maximal run of others becomes one replacement. */
  function Collapse(s: string, allowed: string, replaceWith: string): string
    decreases |s|
  {
    if s == "" then ""
    else if s[0] in allowed then [s[0]] + Collapse(s[1..], allowed, replaceWith)
    else replaceWith + Collapse(AfterRun(s, allowed), allowed, replaceWith)
  }

  predicate EndsDisallowed(s: string, allowed: string) {
    s != "" && s[|s| - 1] !in allowed
  }

  /** What sanitize_characters_in_string returns: a lone character that ends in a replaced run
      is dropped. */
  function SanitizedCharacters(value: string, allowed: string, replaceWith: string): string {
    var collapsed := Collapse(value, allowed, replaceWith);
    if |collapsed| == 1 && EndsDisallowed(value, allowed) then "" else collapsed
  }

  /** What is still to be appended when the last character was or was not replaced. */
  ghost function Pending(rest: string, allowed: string, replaceWith: string, lastWasReplaced: bool): string {
    Collapse(if lastWasReplaced then AfterRun(rest, allowed) else rest, allowed, replaceWith)
  }

  /** What reading one more character settles. */
  lemma PendingStep(c: char, rest: string, allowed: string, replaceWith: string, lastWasReplaced: bool)
    ensures Pending([c] + rest, allowed, replaceWith, lastWasReplaced) ==
      if c in allowed then [c] + Pending(rest, allowed, replaceWith, false)
      else (if lastWasReplaced then "" else replaceWith) + Pending(rest, allowed, replaceWith, true)
  {
    assert ([c] + rest)[1..] == rest;
    if c !in allowed {
      assert AfterRun([c] + rest, allowed) == AfterRun(rest, allowed);
    }
  }

  lemma PendingAt(value: string, i: nat, allowed: string, replaceWith: string, lastWasReplaced: bool)
    requires i < |value|
    ensures Pending(value[i..], allowed, replaceWith, lastWasReplaced) ==
      if value[i] in allowed then [value[i]] + Pending(value[i + 1..], allowed, replaceWith, false)
      else (if lastWasReplaced then "" else replaceWith) + Pending(value[i + 1..], allowed, replaceWith, true)
    ensures EndsDisallowed(value[..i + 1], allowed) <==> value[i] !in allowed
  {
    assert value[i..] == [value[i]] + value[i + 1..];
    PendingStep(value[i], value[i + 1..], allowed, replaceWith, lastWasReplaced);
  }

  method SanitizeCharactersInString(value: string, allowed: string, replaceWith: string) returns (r: string)
    ensures r == SanitizedCharacters(value, allowed, replaceWith)
  {
    var newValue := "";
    var lastCharWasReplaced := false;
    for i := 0 to |value|
      invariant newValue + Pending(value[i..], allowed, replaceWith, lastCharWasReplaced)
             == Collapse(value, allowed, replaceWith)
      invariant lastCharWasReplaced == EndsDisallowed(value[..i], allowed)
    {
      var c := value[i];
      PendingAt(value, i, allowed, replaceWith, lastCharWasReplaced);
      if c in allowed {
        newValue := newValue + [c];
        lastCharWasReplaced := false;
      } else if !lastCharWasReplaced {
        newValue := newValue + replaceWith;
        lastCharWasReplaced := true;
      }
    }
    assert value[..|value|] == value;
    if |newValue| == 1 && lastCharWasReplaced {
      return "";
    }
    return newValue;
  }

  function CountAllowed(s: string, allowed: string): nat {
    if s == "" then 0 else (if s[0] in allowed then 1 else 0) + CountAllowed(s[1..], allowed)
  }

  lemma {:induction false} AfterRunKeepsTheRest(s: string, allowed: string)
    ensures CountAllowed(AfterRun(s, allowed), allowed) == CountAllowed(s, allowed)
    ensures AfterRun(s, allowed) != "" ==>
      EndsDisallowed(AfterRun(s, allowed), allowed) == EndsDisallowed(s, allowed)
  {
    if s != "" && s[0] !in allowed {
      AfterRunKeepsTheRest(s[1..], allowed);
    }
  }

  /** The length of the collapsed string: one per allowed character, and a replacement for
      every run, of which there is one at the end when the string ends in one. */
  lemma {:induction false} CollapsedLength(s: string, allowed: string, replaceWith: string)
    ensures |Collapse(s, allowed, replaceWith)|
         >= CountAllowed(s, allowed) + if EndsDisallowed(s, allowed) then |replaceWith| else 0
    ensures replaceWith == "" ==> |Collapse(s, allowed, replaceWith)| == CountAllowed(s, allowed)
    ensures CountAllowed(s, allowed) == 0 ==> Collapse(s, allowed, replaceWith) == if s == "" then "" else replaceWith
    decreases |s|
  {
    if s != "" {
      if s[0] in allowed {
        CollapsedLength(s[1..], allowed, replaceWith);
      } else {
        AfterRunKeepsTheRest(s, allowed);
        CollapsedLength(AfterRun(s, allowed), allowed, replaceWith);
        RunEndsAtAllowed(s, allowed);
      }
    }
  }

  lemma {:induction false} RunEndsAtAllowed(s: string, allowed: string)
    ensures AfterRun(s, allowed) != "" ==>
      AfterRun(s, allowed)[0] in allowed && CountAllowed(AfterRun(s, allowed), allowed) > 0
  {
    if s != "" && s[0] !in allowed {
      RunEndsAtAllowed(s[1..], allowed);
    }
  }

  /** A non-empty value of which nothing is left, for a replacement of the given length. */
  predicate SanitizedAway(value: string, allowed: string, replacementLength: nat) {
    || (replacementLength <= 1 && CountAllowed(value, allowed) == 0)
    || (replacementLength == 0 && CountAllowed(value, allowed) == 1 && EndsDisallowed(value, allowed))
  }

  /** When the result is empty, for replacements of every length. Its documentation promises
      the empty string whenever no character is allowed; with a replacement of two or more
      characters that holds for the empty input alone, and with an empty replacement a single
      kept character is lost as well when a disallowed one follows it. */
  lemma EmptyExactlyWhen(value: string, allowed: string, replaceWith: string)
    ensures SanitizedCharacters(value, allowed, replaceWith) == "" <==>
      value == "" || SanitizedAway(value, allowed, |replaceWith|)
  {
    CollapsedLength(value, allowed, replaceWith);
    if CountAllowed(value, allowed) == 0 {
      NoneAllowedEnds(value, allowed);
    }
  }

  lemma {:induction false} NoneAllowedEnds(s: string, allowed: string)
    requires CountAllowed(s, allowed) == 0
    ensures s != "" ==> EndsDisallowed(s, allowed)
  {
    if |s| > 1 {
      NoneAllowedEnds(s[1..], allowed);
    }
  }

  /** The allowed characters of a string, in order. */
  function Kept(s: string, allowed: string): string {
    if s == "" then "" else (if s[0] in allowed then [s[0]] else "") + Kept(s[1..], allowed)
  }

  lemma KeptByHead(c: char, rest: string, allowed: string)
    ensures Kept([c] + rest, allowed) == (if c in allowed then [c] else "") + Kept(rest, allowed)
  {
    assert ([c] + rest)[1..] == rest;
  }

  lemma {:induction false} KeptOfConcat(a: string, b: string, allowed: string)
    ensures Kept(a + b, allowed) == Kept(a, allowed) + Kept(b, allowed)
  {
    if a == "" {
      assert a + b == b;
    } else {
      assert a + b == [a[0]] + (a[1..] + b);
      KeptOfConcat(a[1..], b, allowed);
      KeptByHead(a[0], a[1..] + b, allowed);
      KeptByHead(a[0], a[1..], allowed);
      assert a == [a[0]] + a[1..];
    }
  }

  lemma {:induction false} AfterRunKeepsKept(s: string, allowed: string)
    ensures Kept(AfterRun(s, allowed), allowed) == Kept(s, allowed)
  {
    if s != "" && s[0] !in allowed {
      AfterRunKeepsKept(s[1..], allowed);
    }
  }

  /** When the replacement holds no allowed character, collapsing keeps the allowed characters
      of the value, all of them and in order. */
  lemma {:induction false} CollapseKeepsAllowed(s: string, allowed: string, replaceWith: string)
    requires Kept(replaceWith, allowed) == ""
    ensures Kept(Collapse(s, allowed, replaceWith), allowed) == Kept(s, allowed)
    decreases |s|
  {
    if s != "" {
      if s[0] in allowed {
        CollapseKeepsAllowed(s[1..], allowed, replaceWith);
        KeptOfConcat([s[0]], Collapse(s[1..], allowed, replaceWith), allowed);
      } else {
        AfterRunKeepsKept(s, allowed);
        CollapseKeepsAllowed(AfterRun(s, allowed), allowed, replaceWith);
        KeptOfConcat(replaceWith, Collapse(AfterRun(s, allowed), allowed, replaceWith), allowed);
      }
    }
  }

  ghost predicate Over(s: string, alphabet: set<char>) {
    forall i | 0 <= i < |s| :: s[i] in alphabet
  }

  function CharsOf(s: string): set<char> {
    set c | c in s
  }

  lemma {:induction false} CollapseOver(s: string, allowed: string, replaceWith: string)
    ensures Over(Collapse(s, allowed, replaceWith), CharsOf(allowed) + CharsOf(replaceWith))
    decreases |s|
  {
    if s != "" {
      if s[0] in allowed {
        CollapseOver(s[1..], allowed, replaceWith);
      } else {
        CollapseOver(AfterRun(s, allowed), allowed, replaceWith);
      }
    }
  }

  lemma {:induction false} CollapseFixes(s: string, allowed: string, replaceWith: string)
    requires Over(s, CharsOf(allowed))
    ensures Collapse(s, allowed, replaceWith) == s
    ensures !EndsDisallowed(s, allowed)
  {
    if s != "" {
      CollapseFixes(s[1..], allowed, replaceWith);
    }
  }

  ghost predicate NoneOf(s: string, allowed: string) {
    forall i | 0 <= i < |s| :: s[i] !in allowed
  }

  lemma {:induction false} AfterRunOf(d: string, rest: string, allowed: string)
    requires NoneOf(d, allowed) && (rest != "" ==> rest[0] in allowed)
    ensures AfterRun(d + rest, allowed) == rest
  {
    if d == "" {
      assert d + rest == rest;
    } else {
      assert (d + rest)[1..] == d[1..] + rest;
      AfterRunOf(d[1..], rest, allowed);
    }
  }

  lemma {:induction false} CollapseAfter(a: string, rest: string, allowed: string, replaceWith: string)
    requires Over(a, CharsOf(allowed))
    ensures Collapse(a + rest, allowed, replaceWith) == a + Collapse(rest, allowed, replaceWith)
  {
    if a == "" {
      assert a + rest == rest;
    } else {
      assert (a + rest)[1..] == a[1..] + rest;
      CollapseAfter(a[1..], rest, allowed, replaceWith);
    }
  }

  /** Run by run: allowed characters are passed on, the disallowed ones that follow them, however
      many, give one replacement, and what follows those is treated alike. */
  lemma CollapseByRuns(a: string, d: string, rest: string, allowed: string, replaceWith: string)
    requires Over(a, CharsOf(allowed)) && d != "" && NoneOf(d, allowed)
    requires rest != "" ==> rest[0] in allowed
    ensures Collapse(a, allowed, replaceWith) == a
    ensures Collapse(a + d + rest, allowed, replaceWith) == a + replaceWith + Collapse(rest, allowed, replaceWith)
  {
    CollapseFixes(a, allowed, replaceWith);
    assert a + d + rest == a + (d + rest);
    CollapseAfter(a, d + rest, allowed, replaceWith);
    AfterRunOf(d, rest, allowed);
  }

  // ----- Whole names -----

  datatype HashFragmentMode = Always | Never | OnlyIfChanged

  /** The parameters of sanitize_string, and the hash it uses: an unknown function whose hex
      digest has 64 characters. */
  datatype Settings = Settings(
    maxLength: int,
    allowed: Option<string>,
    replacement: string,
    separator: string,
    mode: HashFragmentMode,
    fragmentLength: int,
    digest: string -> string)

  ghost predicate HexDigest(digest: string -> string) {
    forall v :: |digest(v)| == 64
  }

  /** Python's `s[:n]`; a negative n drops characters from the end. */
  function Take(s: string, n: int): (r: string)
    ensures r <= s
    ensures |r| == if n >= |s| then |s| else if n >= 0 then n else if |s| + n >= 0 then |s| + n else 0
  {
    if n >= |s| then s
    else if n >= 0 then s[..n]
    else if |s| + n >= 0 then s[..|s| + n]
    else ""
  }

  function HashFragment(c: Settings, value: string): string {
    Take(c.digest(value), c.fragmentLength)
  }

  /** The length of every fragment. */
  function FragmentSize(c: Settings): nat {
    if c.fragmentLength >= 64 then 64
    else if c.fragmentLength >= 0 then c.fragmentLength
    else if 64 + c.fragmentLength >= 0 then 64 + c.fragmentLength
    else 0
  }

  function Required(c: Settings): nat {
    |c.separator| + FragmentSize(c)
  }

  predicate LengthsAccepted(c: Settings) {
    c.maxLength >= MINIMUM_MAX_LENGTH && c.fragmentLength <= c.maxLength / 2
  }

  function Cleaned(c: Settings, value: string): string {
    if c.allowed.None? || c.allowed.value == "" then value
    else SanitizedCharacters(value, c.allowed.value, c.replacement)
  }

  function WithFragment(c: Settings, cleaned: string, value: string): string {
    var kept := Take(cleaned, c.maxLength - (|c.separator| + |HashFragment(c, value)|));
    if kept == "" then HashFragment(c, value) else kept + c.separator + HashFragment(c, value)
  }

  function SanitizeString(c: Settings, value: string): Result<string> {
    if !LengthsAccepted(c) then Err(BadLength)
    else
      var cleaned := Cleaned(c, value);
      match c.mode
      case Always => Ok(WithFragment(c, cleaned, value))
      case OnlyIfChanged =>
        var short := Take(cleaned, c.maxLength);
        if value == short then Ok(value) else Ok(WithFragment(c, short, value))
      case Never => if cleaned == "" then Err(FullySanitized) else Ok(cleaned)
  }

  /** The lengths are refused exactly when the maximum is below 16 or the fragment longer than half
      of it. */
  lemma LengthsRefusedIff(c: Settings, value: string)
    ensures SanitizeString(c, value) == Err(BadLength) <==> c.maxLength < 16 || 2 * c.fragmentLength > c.maxLength
  {
  }

  /** The separator and the fragment leave room within the maximum length. */
  predicate Fits(c: Settings) {
    Required(c) <= c.maxLength
  }

  lemma FragmentHasSize(c: Settings, value: string)
    requires HexDigest(c.digest)
    ensures |HashFragment(c, value)| == FragmentSize(c)
  {
    assert |c.digest(value)| == 64;
  }

  // ----- Collisions -----

  /** A name is the value itself, or it ends in the fragment of the value's hash. */
  lemma NameOrFragment(c: Settings, value: string)
    requires HexDigest(c.digest) && LengthsAccepted(c) && c.mode != Never
    ensures
      var r := SanitizeString(c, value);
      && r.Ok?
      && ((r.value == value && c.mode == OnlyIfChanged)
          || (|r.value| >= FragmentSize(c) && r.value[|r.value| - FragmentSize(c)..] == HashFragment(c, value)))
  {
    FragmentHasSize(c, value);
  }

  /** How many characters of the cleaned value a name shows; none if the number is not positive. */
  function Shown(c: Settings, length: nat): int {
    var base := if c.mode == OnlyIfChanged && length > c.maxLength then c.maxLength else length;
    var room := c.maxLength - Required(c);
    if room < 0 then base + room else if room < base then room else base
  }

  /** The cleaned value, cut to the maximum length, is the value. */
  predicate Unchanged(c: Settings, value: string) {
    || (Cleaned(c, value) == value && |value| <= c.maxLength)
    || (value < Cleaned(c, value) && |value| == c.maxLength)
  }

  /** Every name, letter by letter: the value itself, in mode ONLY_IF_CHANGED when it is unchanged;
      else the start of the cleaned value, the separator and the first characters of the hash; or
      those alone when nothing of the cleaned value is shown. A negative fragment length leaves out
      characters at the end of the hash. */
  lemma NameLetterByLetter(c: Settings, value: string)
    requires HexDigest(c.digest) && LengthsAccepted(c) && c.mode != Never
    ensures
      var r, cleaned, hash := SanitizeString(c, value), Cleaned(c, value), c.digest(value);
      var fragment := hash[..FragmentSize(c)];
      var n := Shown(c, |cleaned|);
      r == Ok(if c.mode == OnlyIfChanged && Unchanged(c, value) then value
              else if n <= 0 then fragment
              else cleaned[..n] + c.separator + fragment)
  {
    FragmentHasSize(c, value);
    var cleaned := Cleaned(c, value);
    assert HashFragment(c, value) == c.digest(value)[..FragmentSize(c)];
    var short := if c.mode == Always then cleaned else Take(cleaned, c.maxLength);
    var kept := Take(short, c.maxLength - Required(c));
    assert kept == cleaned[..|kept|];
  }

  /** Two values given the same name have the same hash fragment, or, in mode ONLY_IF_CHANGED,
      one of them is itself the name the other was given. */
  lemma CollisionsShareFragments(c: Settings, v: string, w: string)
    requires HexDigest(c.digest) && LengthsAccepted(c) && c.mode != Never
    requires v != w && SanitizeString(c, v) == SanitizeString(c, w)
    ensures
      || HashFragment(c, v) == HashFragment(c, w)
      || (c.mode == OnlyIfChanged && (SanitizeString(c, w) == Ok(v) || SanitizeString(c, v) == Ok(w)))
  {
    NameOrFragment(c, v);
    NameOrFragment(c, w);
  }

  /** A name shows as much of the cleaned value as separator and fragment leave room for. */
  lemma NameShowsTheValue(c: Settings, value: string, i: nat)
    requires HexDigest(c.digest) && LengthsAccepted(c) && c.mode != Never
    requires i < |Cleaned(c, value)| && i + Required(c) < c.maxLength
    ensures
      var r := SanitizeString(c, value);
      r.Ok? && i < |r.value| && r.value[i] == Cleaned(c, value)[i]
  {
    FragmentHasSize(c, value);
    var short := if c.mode == Always then Cleaned(c, value) else Take(Cleaned(c, value), c.maxLength);
    assert i < |short| && short[i] == Cleaned(c, value)[i];
    var kept := Take(short, c.maxLength - Required(c));
    assert i < |kept| && kept[i] == short[i];
  }

  // ----- Length -----

  /** Names never exceed the maximum length, whatever the value, exactly when separator and
      fragment fit; ONLY_IF_CHANGED cuts the value to the maximum length first, so there they
      may also be so long together that nothing but a short enough fragment is left. */
  predicate NamesBounded(c: Settings) {
    || Fits(c)
    || (c.mode == OnlyIfChanged && Required(c) >= 2 * c.maxLength && FragmentSize(c) <= c.maxLength)
  }

  lemma BoundedNames(c: Settings, value: string)
    requires HexDigest(c.digest) && LengthsAccepted(c) && c.mode != Never && NamesBounded(c)
    ensures SanitizeString(c, value).Ok? && |SanitizeString(c, value).value| <= c.maxLength
  {
    FragmentHasSize(c, value);
  }

  /** n times an allowed character: nothing in it is replaced. */
  function Plain(c: Settings, n: nat): (s: string)
    ensures |s| == n
  {
    seq(n, i => if c.allowed.None? || c.allowed.value == "" then 'a' else c.allowed.value[0])
  }

  lemma PlainIsClean(c: Settings, n: nat)
    ensures Cleaned(c, Plain(c, n)) == Plain(c, n)
  {
    if c.allowed.Some? && c.allowed.value != "" {
      CollapseFixes(Plain(c, n), c.allowed.value, c.replacement);
    }
  }

  lemma LongName(c: Settings) returns (value: string)
    requires HexDigest(c.digest) && LengthsAccepted(c) && c.mode != Never && !NamesBounded(c)
    ensures SanitizeString(c, value).Ok? && |SanitizeString(c, value).value| > c.maxLength
  {
    var n := if c.mode == Always then Required(c) - c.maxLength + 1 else c.maxLength + 1;
    value := Plain(c, n);
    PlainIsClean(c, n);
    FragmentHasSize(c, value);
  }

  lemma BoundedExactlyWhen(c: Settings)
    requires HexDigest(c.digest) && LengthsAccepted(c) && c.mode != Never
    ensures (forall value :: SanitizeString(c, value).Ok? && |SanitizeString(c, value).value| <= c.maxLength)
       <==> NamesBounded(c)
  {
    if NamesBounded(c) {
      forall value ensures SanitizeString(c, value).Ok? && |SanitizeString(c, value).value| <= c.maxLength {
        BoundedNames(c, value);
      }
    } else {
      var value := LongName(c);
    }
  }

  /** Nothing is left of the value once its characters are replaced. */
  predicate NothingLeft(c: Settings, value: string) {
    || value == ""
    || (c.allowed.Some? && c.allowed.value != "" && SanitizedAway(value, c.allowed.value, |c.replacement|))
  }

  /** Mode NEVER raises exactly when nothing is left, and otherwise keeps every allowed
      character of the value, in order, provided that the replacement adds none. */
  lemma NeverRaisesIffNothingLeft(c: Settings, value: string)
    requires LengthsAccepted(c) && c.mode == Never
    ensures SanitizeString(c, value) == Err(FullySanitized) <==> NothingLeft(c, value)
    ensures !NothingLeft(c, value) && c.allowed.Some? && Kept(c.replacement, c.allowed.value) == "" ==>
      && SanitizeString(c, value).Ok?
      && Kept(SanitizeString(c, value).value, c.allowed.value) == Kept(value, c.allowed.value)
  {
    if c.allowed.Some? && c.allowed.value != "" {
      EmptyExactlyWhen(value, c.allowed.value, c.replacement);
      if Kept(c.replacement, c.allowed.value) == "" {
        CollapseKeepsAllowed(value, c.allowed.value, c.replacement);
      }
    }
  }

  /** It does not truncate: whatever max_length says, names of every length come out. */
  lemma NeverDoesNotTruncate(c: Settings, n: nat)
    requires LengthsAccepted(c) && c.mode == Never && n > 1
    ensures exists value :: SanitizeString(c, value).Ok? && |SanitizeString(c, value).value| == n
  {
    PlainIsClean(c, n);
    assert SanitizeString(c, Plain(c, n)) == Ok(Plain(c, n));
  }

  // ----- Alphabet and fixpoint -----

  function NameAlphabet(c: Settings, value: string): set<char> {
    (if c.allowed.Some? then CharsOf(c.allowed.value) else {})
      + CharsOf(c.replacement) + CharsOf(c.separator) + CharsOf(c.digest(value))
  }

  /** Given allowed characters, a name is made of those, of the replacement, of the separator
      and of characters of the hash. */
  lemma NameOverAlphabet(c: Settings, value: string)
    requires c.allowed.Some? && c.allowed.value != "" && SanitizeString(c, value).Ok?
    ensures Over(SanitizeString(c, value).value, NameAlphabet(c, value))
  {
    CollapseOver(value, c.allowed.value, c.replacement);
    assert Over(Cleaned(c, value), NameAlphabet(c, value));
    assert Over(HashFragment(c, value), NameAlphabet(c, value));
    assert Over(c.separator, NameAlphabet(c, value));
  }

  /** The allowed characters include everything that sanitizing may add. */
  ghost predicate ClosedAlphabet(c: Settings) {
    c.allowed.Some? && c.allowed.value != "" ==>
      forall value :: NameAlphabet(c, value) <= CharsOf(c.allowed.value)
  }

  /** Sanitizing a sanitized name changes nothing. */
  lemma SanitizingIsIdempotent(c: Settings, value: string)
    requires HexDigest(c.digest) && LengthsAccepted(c) && c.mode == OnlyIfChanged
    requires NamesBounded(c) && ClosedAlphabet(c)
    ensures SanitizeString(c, value).Ok?
    ensures SanitizeString(c, SanitizeString(c, value).value) == SanitizeString(c, value)
  {
    BoundedNames(c, value);
    var name := SanitizeString(c, value).value;
    if c.allowed.Some? && c.allowed.value != "" {
      NameOverAlphabet(c, value);
      assert NameAlphabet(c, value) <= CharsOf(c.allowed.value);
      CollapseFixes(name, c.allowed.value, c.replacement);
    }
  }
}
