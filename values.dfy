/** Values shared by every part of the pipeline: the JSON-like values that API
    records and stored documents are made of, the exceptions the pipeline can
    raise, and the usual Option/Result wrappers. */
module Values {

  /** An opaque instant, as returned by `datetime.now()`. */
  type Timestamp = nat

  /** A JSON-like value as it appears in an API record or a stored document. */
  datatype Value =
    | Null
    | Bool(b: bool)
    | Num(n: int)
    | Str(s: string)
    | Arr(items: seq<Value>)
    | Obj(fields: map<string, Value>)
    | Time(stamp: Timestamp)

  /** A record with named fields: a raw API article or a stored document. */
  type Document = map<string, Value>

  /** A raw article as delivered by the remote API. */
  type RawArticle = map<string, Value>

  /** The exceptions that can leave a collaborator. */
  datatype Exception =
    | KeyError(key: string)       // a missing key in the response body
    | TypeError(message: string)  // a value of the wrong type in the body or a date
    | StoreError(message: string) // any failure of the document store

  /** `str(e)`: the message the pipeline logs and reports for an exception. */
  function Describe(e: Exception): string
  {
    match e
    case KeyError(k) => "'" + k + "'"
    case TypeError(msg) => msg
    case StoreError(msg) => msg
  }

  datatype Option<+T> = None | Some(value: T)

  datatype Result<+T> = Ok(value: T) | Err(error: Exception)

  /** Python's `d.get(key, default)`. */
  function Get(d: map<string, Value>, key: string, default: Value): Value
  {
    if key in d then d[key] else default
  }
}
