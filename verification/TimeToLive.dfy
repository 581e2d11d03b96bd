/** key_value/shared/utils/time_to_live.py: validating and preparing TTL arguments. */
module TimeToLive {
  import opened Prelude

  /** Seconds since some epoch, and lengths of time. */
  type Time = real

  /** The `ttl` argument of put_many: None, one number for all keys, or a list. */
  datatype TtlArg = NoTtl | Scalar(t: real) | List(ts: seq<Option<real>>)

  predicate PositiveTtl(t: Option<real>) {
    t.Some? ==> t.value > 0.0
  }

  function ValidateTtl(t: Option<real>): Result<Option<real>> {
    if PositiveTtl(t) then Ok(t) else Err(InvalidTtl)
  }

  /** `[validate_ttl(t=ttl) for ttl in t]`: the first invalid element raises. */
  function ValidateEach(ts: seq<Option<real>>): Result<seq<Option<real>>> {
    if ts == [] then Ok([])
    else
      match ValidateTtl(ts[0])
      case Err(e) => Err(e)
      case Ok(t) =>
        match ValidateEach(ts[1..])
        case Err(e) => Err(e)
        case Ok(rest) => Ok([t] + rest)
  }

  lemma {:induction false} ValidateEachOutcome(ts: seq<Option<real>>)
    ensures (forall i | 0 <= i < |ts| :: PositiveTtl(ts[i])) ==> ValidateEach(ts) == Ok(ts)
    ensures (exists i | 0 <= i < |ts| :: !PositiveTtl(ts[i])) ==> ValidateEach(ts) == Err(InvalidTtl)
  {
    if ts != [] {
      ValidateEachOutcome(ts[1..]);
      assert ts == [ts[0]] + ts[1..];
      if i :| 0 < i < |ts| && !PositiveTtl(ts[i]) {
        assert ts[1..][i - 1] == ts[i];
      }
    }
  }

  /** The TTL that position i of a bulk put asks for. */
  function RequestedTtl(t: TtlArg, i: nat): Option<real>
    requires t.List? ==> i < |t.ts|
  {
    match t
    case NoTtl => None
    case Scalar(s) => Some(s)
    case List(ts) => ts[i]
  }

  function PrepareTtls(t: TtlArg, count: nat): Result<seq<Option<real>>> {
    match t
    case NoTtl => Ok(seq(count, i => None))
    case Scalar(s) => ValidateEach(seq(count, i => Some(s)))
    case List(ts) => if |ts| != count then Err(IncorrectTtlCount) else ValidateEach(ts)
  }

  /** prepare_ttls succeeds exactly when the count fits and no position asks for a TTL
      that is zero or negative; it then hands every position the TTL it asked for.
      A bad scalar is accepted when there is no key to apply it to. */
  lemma PrepareTtlsOutcome(t: TtlArg, count: nat)
    ensures
      var r := PrepareTtls(t, count);
      if t.List? && |t.ts| != count then r == Err(IncorrectTtlCount)
      else if exists i | 0 <= i < count :: !PositiveTtl(RequestedTtl(t, i)) then r == Err(InvalidTtl)
      else r.Ok? && |r.value| == count && forall i | 0 <= i < count :: r.value[i] == RequestedTtl(t, i)
  {
    match t
    case NoTtl =>
    case Scalar(s) =>
      var ts := seq(count, i => Some(s));
      ValidateEachOutcome(ts);
      assert forall i | 0 <= i < |ts| :: RequestedTtl(t, i) == ts[i];
    case List(ts) =>
      ValidateEachOutcome(ts);
      assert forall i | 0 <= i < |ts| :: RequestedTtl(t, i) == ts[i];
  }
}
