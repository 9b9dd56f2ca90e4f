/** Values shared by the dispatcher's modules: optional values, the
    result of a step that may raise, the exceptions the dispatcher raises
    or inspects, and JSON values carried through untouched. */
module Common {

  /** A dictionary lookup with `.get`: `None` when the key is absent. */
  datatype Option<T> = None | Some(value: T)

  /** A step that either yields a value or raises an exception. */
  datatype Result<T> = Ok(value: T) | Err(error: Error) {
    predicate IsFailure() { Err? }

    function PropagateFailure<U>(): Result<U>
      requires Err?
    {
      Err(error)
    }

    function Extract(): T
      requires Ok?
    {
      value
    }
  }

  /** The exception classes that matter to the dispatcher's control flow. */
  datatype ErrorKind =
    | KeyError      // a missing dictionary key
    | IndexError    // `[0]` or `[1]` on a list that is too short
    | TypeError     // `raise` of a value that is not an exception
    | NameError     // a local variable read before it was assigned
    | Exception     // a plain `Exception(text)`
    | ClientError   // an AWS service error, which carries a response
    | OtherError    // any other exception raised by a foreign call

  /** An exception as the handlers see it: its class, `str(err)`, and
      `err.response['Error']['Code']` when the exception has a `response`
      attribute (`None` when it has none). */
  datatype Error = Error(kind: ErrorKind, text: string, code: Option<string>)

  /** `KeyError(key)`; its `str` is the key in single quotes. */
  function KeyErr(key: string): (e: Error)
    ensures e.kind == KeyError && e.code == None
  {
    Error(KeyError, "'" + key + "'", None)
  }

  /** What indexing past the end of a Python list raises. */
  const IndexErr: Error := Error(IndexError, "list index out of range", None)

  /** JSON values that the dispatcher passes along without looking inside. */
  datatype Json =
    | JNull
    | JBool(b: bool)
    | JNum(n: int)
    | JStr(s: string)
    | JArr(items: seq<Json>)
    | JObj(fields: map<string, Json>)

  /** `d[key]` on an optional field: `KeyError(key)` when it is absent. */
  function Get<T>(o: Option<T>, key: string): (r: Result<T>)
    ensures o.Some? <==> r.Ok?
    ensures o.Some? ==> r.value == o.value
    ensures o.None? ==> r.error == KeyErr(key)
  {
    match o
    case Some(v) => Ok(v)
    case None => Err(KeyErr(key))
  }

  /** `d[key][0]` on an optional list field. */
  function First<T>(o: Option<seq<T>>, key: string): (r: Result<T>)
    ensures r.Ok? <==> o.Some? && o.value != []
    ensures r.Ok? ==> r.value == o.value[0]
    ensures o.None? ==> r.error == KeyErr(key)
    ensures o == Some([]) ==> r.error == IndexErr
  {
    match o
    case None => Err(KeyErr(key))
    case Some(s) => if s == [] then Err(IndexErr) else Ok(s[0])
  }
}
