/** How the behaviour turns its `serializer` setting into a serializer object:
    unset means the JSON serializer, a ready object is used as it is, and a
    `serialize`/`unserialize` callback pair becomes a callback serializer. The
    result is resolved on first access and kept. */
module SerializerSetup {
  import opened Wrappers
  import JsonExpressionCodec

  /** The serializer classes of the package. A JSON-expression serializer is the
      one `JsonExpressionCodec` models, with its configured type. Callbacks are named
      by the PHP callables they were configured with. */
  datatype Serializer =
    | JsonSerializer
    | PhpSerializer
    | JsonExpression(codec: JsonExpressionCodec.JsonExpressionSerializer)
    | CallbackSerializer(serialize: string, unserialize: string)

  /** What `setSerializer` may be given. */
  datatype SerializerConfig =
    | Unconfigured
    | Ready(instance: Serializer)
    | Callbacks(serialize: string, unserialize: string)

  /** The behaviour's serializer slot: a configuration not yet resolved, or the
      resolved object. */
  datatype Slot = Pending(config: SerializerConfig) | Resolved(serializer: Serializer)

  /** The serializer a configuration stands for. */
  function Resolve(config: SerializerConfig): (s: Serializer)
    ensures config.Unconfigured? ==> s == JsonSerializer
    ensures config.Ready? ==> s == config.instance
    ensures config.Callbacks? ==> s.CallbackSerializer? && s.serialize == config.serialize && s.unserialize == config.unserialize
  {
    match config
    case Unconfigured => JsonSerializer
    case Ready(instance) => instance
    case Callbacks(ser, unser) => CallbackSerializer(ser, unser)
  }

  /** `setSerializer`: a new configuration replaces whatever was resolved before. */
  function SetSerializer(slot: Slot, config: SerializerConfig): (r: Slot)
    ensures r.Pending? && GetSerializer(r).1 == Resolve(config)
  {
    Pending(config)
  }

  /** `getSerializer`: resolves a pending configuration once and keeps the result. */
  function GetSerializer(slot: Slot): (r: (Slot, Serializer))
    ensures r.0 == Resolved(r.1)
    ensures slot.Pending? ==> r.1 == Resolve(slot.config)
    ensures slot.Resolved? ==> r.1 == slot.serializer
  {
    match slot
    case Pending(config) => (Resolved(Resolve(config)), Resolve(config))
    case Resolved(s) => (slot, s)
  }

  /** A behaviour that was never configured hands out the JSON serializer. */
  lemma DefaultIsJson()
    ensures GetSerializer(Pending(Unconfigured)).1 == JsonSerializer
  {
  }

  /** Resolution is cached: asking again returns the very same serializer and leaves
      the slot as it was. */
  lemma GetSerializerIdempotent(slot: Slot)
    ensures GetSerializer(GetSerializer(slot).0) == GetSerializer(slot)
  {
  }

  /** Whatever was configured before, setting a ready object makes the behaviour
      hand out exactly that object; setting a callback pair makes it hand out a
      callback serializer wrapping that pair. */
  lemma SetThenGet(slot: Slot, config: SerializerConfig)
    ensures config.Ready? ==> GetSerializer(SetSerializer(slot, config)).1 == config.instance
    ensures config.Callbacks? ==>
      GetSerializer(SetSerializer(slot, config)).1 == CallbackSerializer(config.serialize, config.unserialize)
  {
  }

  /** A configured JSON-expression serializer is handed out as it is, so its
      markers carry the type it was configured with. */
  lemma JsonExpressionKeepsType<T>(slot: Slot, ser: JsonExpressionCodec.JsonExpressionSerializer, v: T)
    ensures GetSerializer(SetSerializer(slot, Ready(JsonExpression(ser)))).1 == JsonExpression(ser)
    ensures JsonExpressionCodec.Serialize(GetSerializer(SetSerializer(slot, Ready(JsonExpression(ser)))).1.codec, v).typ == ser.typ
  {
  }
}
