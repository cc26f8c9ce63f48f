/** The JSON values a request body can carry, as Python sees them after `get_json()`. */
module Json {
  /**
   * `Other` stands for a float, an array or an object; the model keeps only
   * its truthiness, so two such values that are equally truthy compare equal
   * here even where Python's `==` tells them apart.
   */
  datatype Value = Null | Bool(b: bool) | Int(i: int) | Str(s: string) | Other(truthy: bool)

  /** A JSON object: the `dict` handlers index with `in`, `[]` and `get`. */
  type Object = map<string, Value>

  /** Python truthiness: `if v:`. */
  predicate Truthy(v: Value) {
    match v
    case Null => false
    case Bool(b) => b
    case Int(i) => i != 0
    case Str(s) => s != ""
    case Other(t) => t
  }

  /** `d.get(k)`: an absent key reads as `None`. */
  function Get(d: Object, k: string): Value {
    if k in d then d[k] else Null
  }
}
