/** Values shared by every part of the model: optional values, results of operations that
    can fail, and the JSON-like values that the services pass around. */
module Common {

  datatype Option<+T> = None | Some(value: T)

  datatype Result<+R, +E> = Success(value: R) | Failure(error: E)

  /** A JSON value as the Node.js services see it after parsing. Numbers are finite reals;
      NaN does not occur in parsed JSON. */
  datatype Json =
    | JNull
    | JBool(b: bool)
    | JNum(n: real)
    | JStr(s: string)
    | JArr(items: seq<Json>)
    | JObj(fields: map<string, Json>)

  /** JavaScript truthiness of a value; `None` stands for `undefined`. */
  predicate Truthy(v: Option<Json>) {
    match v
    case None => false
    case Some(JNull) => false
    case Some(JBool(b)) => b
    case Some(JNum(n)) => n != 0.0
    case Some(JStr(s)) => s != ""
    case Some(JArr(_)) => true
    case Some(JObj(_)) => true
  }

  /** `obj.key` on a plain object: `undefined` when the key is absent. */
  function Field(obj: map<string, Json>, key: string): Option<Json> {
    if key in obj then Some(obj[key]) else None
  }

  /** `a || b || ... || fallback` over object fields: the first truthy field among `keys`. */
  function FirstTruthy(obj: map<string, Json>, keys: seq<string>): (r: Option<Json>)
    ensures r.Some? ==> exists k :: k in keys && Field(obj, k) == r && Truthy(r)
    ensures r.None? ==> forall k :: k in keys ==> !Truthy(Field(obj, k))
  {
    if keys == [] then None
    else if Truthy(Field(obj, keys[0])) then Field(obj, keys[0])
    else FirstTruthy(obj, keys[1..])
  }

  /** `obj.key || fallback` for a numeric field: the number when it is present and non-zero. */
  function NumberOr(obj: map<string, Json>, key: string, fallback: real): real {
    if key in obj && obj[key].JNum? && obj[key].n != 0.0 then obj[key].n else fallback
  }

  function Min(a: real, b: real): real { if a <= b then a else b }
  function Max(a: real, b: real): real { if a >= b then a else b }
  function MinInt(a: int, b: int): int { if a <= b then a else b }
}
