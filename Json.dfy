/** The decoded JSON values the webhook payload is made of, with Python's
    truthiness and Python's `value[key]` indexing on them. */
module Json {
  import opened Wrappers

  datatype Json =
    | Null
    | Bool(b: bool)
    | Int(i: int)
    | Str(s: string)
    | Array(items: seq<Json>)
    | Object(fields: map<string, Json>)

  /** A decoded JSON object, as the webhook body arrives after `request.json()`. */
  type Payload = map<string, Json>

  /** The exceptions a dictionary lookup raises in Python. */
  datatype PyError = KeyError(key: string) | TypeError

  /** Python's `bool(value)`: `None`, `False`, `0`, `""`, `[]` and `{}` are falsy. */
  predicate Truthy(j: Json) {
    match j
    case Null => false
    case Bool(b) => b
    case Int(i) => i != 0
    case Str(s) => s != ""
    case Array(items) => items != []
    case Object(fields) => fields != map[]
  }

  /** Python's `value[key]`: a missing key of a dict raises `KeyError`, and
      subscripting anything but a dict with a string raises `TypeError`. */
  function Index(j: Json, key: string): Result<Json, PyError> {
    match j
    case Object(fields) => if key in fields then Success(fields[key]) else Failure(KeyError(key))
    case _ => Failure(TypeError)
  }
}
