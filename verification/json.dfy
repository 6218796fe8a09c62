/** JSON values as `JSON.parse` produces them. Parsing and printing are not modelled:
    every operation that parses takes the parser as a parameter returning `None` when
    the text is rejected. */
module Json {

  datatype Value =
    | Null
    | Bool(b: bool)
    | Number(n: real)
    | Str(s: string)
    | Array(items: seq<Value>)
    | Object(members: seq<(string, Value)>)

  /** JavaScript truthiness of a parsed value: `null`, `false`, `0` and `""` are falsy,
      every array and object is truthy. */
  predicate Truthy(v: Value) {
    match v
    case Null => false
    case Bool(b) => b
    case Number(n) => n != 0.0
    case Str(s) => s != ""
    case Array(_) => true
    case Object(_) => true
  }
}
