/** `JsonExpressionSerializer`: instead of JSON text it hands the database layer a
    JSON-expression marker, a holder of the value plus an optional JSON type that the
    query should cast it to. */
module JsonExpressionCodec {
  import opened Wrappers

  /** What a serializer may find in, or write to, the storage column: a JSON-expression
      marker carrying a value and a type tag, or any other (plain) value. */
  datatype Column<T> = Expr(value: T, typ: Option<string>) | Plain(raw: T)

  /** The serializer's one setting: the JSON type to cast to; `None` means no cast. */
  datatype JsonExpressionSerializer = JsonExpressionSerializer(typ: Option<string>)

  /** A serializer constructed without configuration. */
  const DefaultSerializer := JsonExpressionSerializer(None)

  /** Wraps any value in a marker; the value is not inspected, so any value of any
      type is accepted. */
  function Serialize<T>(ser: JsonExpressionSerializer, v: T): (c: Column<T>)
    ensures c.Expr?
    ensures c.value == v
    ensures c.typ == ser.typ
  {
    Expr(v, ser.typ)
  }

  /** Unwraps a marker; anything else is returned as it is. */
  function Unserialize<T>(ser: JsonExpressionSerializer, c: Column<T>): (r: T)
    ensures c.Expr? ==> r == c.value
    ensures c.Plain? ==> r == c.raw
  {
    match c
    case Expr(v, _) => v
    case Plain(v) => v
  }

  /** An unconfigured serializer tags its markers with no type. */
  lemma DefaultHasNoCast<T>(v: T)
    ensures Serialize(DefaultSerializer, v).typ == None
  {
  }

  /** Round trip: whatever the configured type, unserializing a serialized value
      gives the value back. */
  lemma RoundTrip<T>(ser: JsonExpressionSerializer, v: T)
    ensures Unserialize(ser, Serialize(ser, v)) == v
  {
  }

  /** The type tag is discarded on the way back: markers that differ only in their
      tag decode to the same value, whichever serializer reads them. */
  lemma TagIgnored<T>(ser1: JsonExpressionSerializer, ser2: JsonExpressionSerializer,
                      v: T, t1: Option<string>, t2: Option<string>)
    ensures Unserialize(ser1, Expr(v, t1)) == Unserialize(ser2, Expr(v, t2)) == v
  {
  }

  /** A column that holds no marker passes through unchanged. */
  lemma PlainPassesThrough<T>(ser: JsonExpressionSerializer, v: T)
    ensures Unserialize(ser, Plain(v)) == v
  {
  }

  /** The converse round trip: a marker carrying the serializer's own type is
      rebuilt exactly by serializing what it decodes to; a marker with another
      type, or a plain value, is not. */
  lemma ReserializeMarker<T>(ser: JsonExpressionSerializer, c: Column<T>)
    ensures Serialize(ser, Unserialize(ser, c)) == c <==> c.Expr? && c.typ == ser.typ
  {
  }
}
