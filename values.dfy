/** Python values as the cache proxies see them, Python truthiness, the
    exceptions the proxies raise or let through, and the JSON codec.

    JSON is kept abstract: a stored text is either the encoding of a value
    (`Encoded`) or some text that does not parse as JSON (`Raw`). */
module Values {

  datatype Option<+T> = None | Some(value: T)

  /** The exceptions of the model. */
  datatype Error =
    | WrongType                 // the store key holds another kind of value (WRONGTYPE)
    | InvalidExpire             // the store refused a non-positive expiry on SET
    | OutOfRange                // the store refused a negative SPOP count
    | MissingArguments          // the store refused a command with no members (SADD key)
    | EmptyMapping              // the client library refused an HMSET with no fields
    | Unencodable               // the client library cannot send this value
    | NonStrKeyword             // a `**` unpacking met a dict key that is not a str
    | ArgumentClash             // a keyword argument repeats a parameter the callee already binds
    | DecodeError               // json.loads refused a text
    | NotSerializable           // json.dumps refused a value
    | NotADict                  // an `assert isinstance(value, dict)` failed
    | Wrapped(cause: Error)     // memoize's `raise ValueError(e)`
    | BlockRaised               // the caller's `with` block raised
    | Raised(tag: string)       // an exception raised by a caller-supplied function

  datatype Result<+T> = Ok(value: T) | Err(error: Error)

  /** The Python values that flow through the proxies. `Bytes` is what the
      client library hands back for text it could not decode. */
  datatype Value =
    | Nil
    | Bool(b: bool)
    | Int(i: int)
    | Str(s: string)
    | Bytes(bytes: string)
    | List(items: seq<Value>)
    | Dict(fields: map<string, Value>)
    | ByteKeyed(fields: map<string, Value>)

  /** `isinstance(v, dict)`. A `ByteKeyed` dict is the dict a hash read
      builds from HGETALL: the client hands field names back as bytes, so
      its keys are the bytes of these names, and it differs from the `Dict`
      with the same names under Python's `==`. */
  predicate IsDict(v: Value) {
    v.Dict? || v.ByteKeyed?
  }

  /** Python truthiness (`if value:`). */
  predicate Truthy(v: Value) {
    match v
    case Nil => false
    case Bool(b) => b
    case Int(i) => i != 0
    case Str(s) => s != ""
    case Bytes(bs) => bs != ""
    case List(xs) => xs != []
    case Dict(m) => m != map[]
    case ByteKeyed(m) => m != map[]
  }

  /** Values json.dumps accepts: no bytes, neither as a value nor as a dict
      key, at any depth. */
  predicate Jsonable(v: Value) {
    match v
    case Bytes(_) => false
    case ByteKeyed(_) => false
    case List(xs) => forall i :: 0 <= i < |xs| ==> Jsonable(xs[i])
    case Dict(m) => forall k :: k in m ==> Jsonable(m[k])
    case _ => true
  }

  /** A text held by the store. */
  datatype Text = Encoded(doc: Value) | Raw(chars: string)

  /** Truthiness of the bytes the store returns: a JSON document is never
      the empty text. */
  predicate Present(t: Text) {
    t.Encoded? || t.chars != ""
  }

  /** json.loads */
  function Loads(t: Text): Result<Value> {
    match t
    case Encoded(v) => Ok(v)
    case Raw(_) => Err(DecodeError)
  }

  /** json.dumps: refuses exactly the values holding bytes (as a value or
      as a dict key), and what it produces decodes back to the value. */
  function Dumps(v: Value): (r: Result<Text>)
    ensures r.Ok? <==> Jsonable(v)
    ensures r.Ok? ==> Present(r.value) && Loads(r.value) == Ok(v)
    ensures r.Err? ==> r.error == NotSerializable
  {
    if Jsonable(v) then Ok(Encoded(v)) else Err(NotSerializable)
  }
}
