/** Values shared by the whole model: optional values, results, row identifiers
    and the JSON values that cross the HTTP boundary (request bodies, token
    payloads, request fields set by middleware). */
module Common {

  datatype Option<+T> = None | Some(value: T)

  datatype Result<+T, +E> = Success(value: T) | Failure(error: E)

  /** Row identifiers (uuids generated by the database). */
  type Id = string

  /** A JSON value as JavaScript sees it after parsing. */
  datatype Json =
    | JNull
    | JBool(b: bool)
    | JNumber(n: int)
    | JString(s: string)
    | JArray(items: seq<Json>)
    | JObject(fields: map<string, Json>)

  /** JavaScript truthiness of a JSON value (NaN is not modelled). */
  predicate Truthy(j: Json) {
    match j
    case JNull => false
    case JBool(b) => b
    case JNumber(n) => n != 0
    case JString(s) => s != ""
    case JArray(_) => true
    case JObject(_) => true
  }

  /** JavaScript truthiness of a value that may be `undefined`. */
  predicate TruthyOpt(j: Option<Json>) {
    j.Some? && Truthy(j.value)
  }

  /** JavaScript truthiness of a `string | undefined` (so `""` is falsy). */
  predicate NonEmpty(s: Option<string>) {
    s.Some? && s.value != ""
  }

  /** The falsy JSON values are exactly `null`, `false`, `0` and `""`. */
  lemma FalsyValues(j: Json)
    ensures !Truthy(j) <==> j == JNull || j == JBool(false) || j == JNumber(0) || j == JString("")
  {
  }

  /** A `string | undefined` is truthy exactly when, seen as a JSON value
      that may be missing, it is truthy. */
  lemma NonEmptyIsTruthyString(s: Option<string>)
    ensures NonEmpty(s) <==> TruthyOpt(if s.Some? then Some(JString(s.value)) else None)
  {
  }
}
