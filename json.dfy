/** Decoded JSON payloads and the Python operations the client applies to them:
    truthiness, `dict.get`, `a or b` and `str(v)`. */
module Json {
  import Text

  /** A decoded JSON value. Numbers are integers (the fields the client reads are ids, flags
      and dates). */
  datatype Json =
    | JNull
    | JBool(b: bool)
    | JInt(n: int)
    | JString(s: string)
    | JArray(items: seq<Json>)
    | JObject(fields: map<string, Json>)

  /** Python's `bool(v)`. */
  predicate Truthy(v: Json) {
    match v
    case JNull => false
    case JBool(b) => b
    case JInt(n) => n != 0
    case JString(s) => s != ""
    case JArray(items) => items != []
    case JObject(fields) => fields != map[]
  }

  /** Python's `d.get(key, default)`. */
  function LookupOr(d: map<string, Json>, key: string, default: Json): Json {
    if key in d then d[key] else default
  }

  /** Python's `d.get(key)`. */
  function Lookup(d: map<string, Json>, key: string): Json {
    LookupOr(d, key, JNull)
  }

  /** Python's `a or b`. */
  function Or(a: Json, b: Json): Json {
    if Truthy(a) then a else b
  }

  /** Python's `str(v)`. A non-empty list or object renders as a placeholder text. */
  function ToStr(v: Json): (s: string)
    ensures s == "" <==> v == JString("")
  {
    match v
    case JNull => "None"
    case JBool(b) => if b then "True" else "False"
    case JInt(n) => Text.Decimal(n)
    case JString(s) => s
    case JArray(items) => if items == [] then "[]" else "[...]"
    case JObject(fields) => if fields == map[] then "{}" else "{...}"
  }

  /** `a or b or c`: the first truthy operand, else the last. */
  lemma OrChain(a: Json, b: Json, c: Json)
    ensures Truthy(a) ==> Or(Or(a, b), c) == a
    ensures !Truthy(a) && Truthy(b) ==> Or(Or(a, b), c) == b
    ensures !Truthy(a) && !Truthy(b) ==> Or(Or(a, b), c) == c
  {
  }
}
