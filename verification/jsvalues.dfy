/**
  Decoded JSON values as the client sees them after the transport parsed a
  response body (`json: true`).  Numbers are integers here.
 */
module JsValues {
  import opened Results

  datatype Value =
    | Null
    | Bool(b: bool)
    | Num(n: int)
    | Str(s: string)
    | Arr(items: seq<Value>)
    | Obj(fields: map<string, Value>)

  /** JavaScript truthiness; `undefined` is `None` and is falsy too. */
  predicate Truthy(v: Option<Value>) {
    match v
    case None => false
    case Some(Null) => false
    case Some(Bool(b)) => b
    case Some(Num(n)) => n != 0
    case Some(Str(s)) => s != ""
    case Some(Arr(_)) => true
    case Some(Obj(_)) => true
  }

  /**
    The own data property `key` of a value.  Only object members are modelled:
    the names the client reads or calls (`statusCode`, `statusMessage`,
    `success`, `message`, `query`, `hasOwnProperty`) are never own properties
    of decoded strings, numbers, booleans or arrays.  Of these names only
    `hasOwnProperty` is also inherited (a callable method), and the
    authentication check treats an own member of that name separately.
   */
  function Lookup(v: Value, key: string): (r: Option<Value>)
    ensures r.Some? <==> v.Obj? && key in v.fields
    ensures r.Some? ==> r.value == v.fields[key]
  {
    match v
    case Obj(fields) => if key in fields then Some(fields[key]) else None
    case _ => None
  }

  /** `body.key` on a possibly undefined body that has already been tested truthy. */
  function Member(body: Option<Value>, key: string): Option<Value> {
    match body
    case None => None
    case Some(v) => Lookup(v, key)
  }
}
