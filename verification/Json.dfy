/** JavaScript values as they occur in an OpenAPI document held in memory. */
module Json {
  datatype Json =
    | Undefined
    | Null
    | Bool(b: bool)
    | Number(n: int)
    | Str(s: string)
    | Arr(items: seq<Json>)
    | Obj(fields: map<string, Json>)

  predicate Truthy(j: Json) {
    match j
    case Undefined => false
    case Null => false
    case Bool(b) => b
    case Number(n) => n != 0
    case Str(s) => s != ""
    case Arr(_) => true
    case Obj(_) => true
  }

  /** The five falsy values. */
  lemma FalsyValues(j: Json)
    ensures !Truthy(j) <==> j == Undefined || j == Null || j == Bool(false) || j == Number(0) || j == Str("")
  {
  }
}
