/** Result types and the JSON-shaped values shared by every other module. */
module Prelude {

  datatype Option<+T> = None | Some(value: T)

  /** The exceptions the modelled code raises. */
  datatype Error =
    | InvalidTtl          // InvalidTTLError
    | IncorrectTtlCount   // IncorrectTTLCountError
    | CountMismatch       // ValueError of put_many
    | EmptyStorePop       // StopIteration out of `next(iter({}))`
    | NotCompound         // TypeError of uncompound_string
    | NotPrefixed         // ValueError of unprefix_key
    | BadLength           // ValueError of sanitize_string about lengths
    | FullySanitized      // ValueError of sanitize_string in mode NEVER

  datatype Result<+T> = Ok(value: T) | Err(error: Error)

  datatype Json =
    | Null
    | Bool(b: bool)
    | Num(n: real)
    | Str(s: string)
    | Arr(items: seq<Json>)
    | Obj(fields: map<string, Json>)

  /** dict[str, Any]: what a store holds under a key. The empty dict is falsy in Python. */
  type Dict = map<string, Json>

  const EMPTY_DICT: Dict := map[]
}
