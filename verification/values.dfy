/** The values a dynamic attribute can hold: the JSON-representable PHP values. */
module Values {

  /** A JSON-representable PHP value. Objects nested inside a value are not modelled;
      a PHP list becomes `List`. */
  datatype Value =
    | Null
    | Bool(b: bool)
    | Int(i: int)
    | Str(s: string)
    | List(items: seq<Value>)

  /** A PHP associative array from attribute name to value. */
  type Attributes = map<string, Value>
}
