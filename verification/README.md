# Dynamic attributes for an ActiveRecord: a Dafny model

`yii2tech/ar-dynattribute` lets an ActiveRecord carry "dynamic" attributes. These are
named values with no table column of their own. All of them are packed into one
storage column (`data` on the test record `Item`) through a pluggable serializer.
This project models two parts of it and proves their properties:

- **`JsonExpressionSerializer`** (`json_expression.dfy`). `serialize` wraps any value in
  a JSON-expression marker that carries the value and the configured JSON type (none by
  default). `unserialize` unwraps a marker and passes anything else through unchanged.
- **The dynamic-attribute store** of `DynamicAttributeBehavior`, as its tests pin it down
  (`attribute_store.dfy`, `json_codec.dfy`, `key_order.dfy`). The store has:
  - a lazily loaded array of values, with stored values layered over
    `dynamicAttributeDefaults`;
  - the `allowRandomDynamicAttribute` admission rule for undeclared names;
  - `getDynamicAttributes`/`setDynamicAttributes`;
  - the save hook. It writes nothing for a record whose dynamic attributes were never
    touched. Otherwise it drops default-valued entries unless
    `saveDynamicAttributeDefaults` is set, applies `dynamicAttributeSaveFilter`, sorts by
    name and writes the result into the column.
- **Serializer resolution** (`serializer_setup.dfy`). An unset serializer means the JSON
  serializer. A ready object is kept as it is. A `serialize`/`unserialize` pair becomes a
  callback serializer. The result is resolved once and cached. A JSON-expression
  serializer in this setting is the one `json_expression.dfy` models.
- **The tests themselves.** `testSetupSerializer` is replayed in `serializer_setup.dfy`
  (`DefaultIsJson`, `SetThenGet`). Every other test method of
  `DynamicAttributeBehaviorTest` is replayed in `item_scenarios.dfy` on the `Item` record,
  down to the exact column text, e.g. `{"commentCount":10,"hasComment":false}`.

The store is modelled from what the behaviour's tests assert, and from the option
names they use. The behaviour class's own implementation is not modelled.

Modelling choices:
- The record's storage column is a single slot, `Option<Entries>`. `None` is an empty
  column.
- A JSON object is modelled as the sequence of its `(name, value)` members in written
  order. Decoding lets a later duplicate name win, as `json_decode` does. Encoding is key
  sorted.
- Property access by name is explicit: `Get`, `Set`, `GetAll`, `SetAll`. Every read or
  write loads the array first, whatever its outcome. An unknown name gives
  `UnknownProperty(name)` next to the loaded store.
- A value is compared with its default by exact equality, not by PHP's loose `==`.

Filter `true` keeps declared names only. The test at
`tests/DynamicAttributeBehaviorTest.php:196-200` shows it dropping the undeclared
attribute `some` while keeping the declared `commentCount`. No other test uses it.

The model drops default-valued entries before the save filter runs. A callable
therefore receives the array without them when `saveDynamicAttributeDefaults` is off,
and its result is exactly what is encoded. The test at lines 202-210 rules out only one
alternative: a callable that received `hasComment` and whose result was saved verbatim
would write `{"hasComment":false,"save":"foo"}`, not the asserted `{"save":"foo"}`.
Applying the callable first and dropping default-valued entries afterwards also gives
`{"save":"foo"}` there; the two orders differ on other callables (see "## Left out").

A record read back with `findOne` is a new `Item`. Its options are the ones `Item`
configures (`tests/data/Item.php:21-32`), not any the saved record had changed at run
time. `FindItem` models that; `Reload` is a read-back that keeps the saving record's
options, and `FindItemIsReload` states exactly when the two agree.

## Model

| member | source | states |
|---|---|---|
| JsonExpressionCodec.Serialize | src/JsonExpressionSerializer.php:35-38 | the result is a marker that carries exactly the given value, tagged with the serializer's configured type; any value of any type is accepted |
| JsonExpressionCodec.Unserialize | src/JsonExpressionSerializer.php:43-50 | a marker yields the value it carries; any other column value is returned as it is |
| JsonExpressionCodec.DefaultHasNoCast | src/JsonExpressionSerializer.php:24-29 | an unconfigured serializer tags its markers with no type, meaning no cast |
| JsonExpressionCodec.RoundTrip | src/JsonExpressionSerializer.php:35-50 | unserializing a serialized value gives the value back, for every value and every type setting |
| JsonExpressionCodec.TagIgnored | src/JsonExpressionSerializer.php:43-47 | markers that differ only in their type tag decode to the same carried value, whichever serializer reads them |
| JsonExpressionCodec.PlainPassesThrough | src/JsonExpressionSerializer.php:43-50 | a column value that is not a marker is returned unchanged |
| JsonExpressionCodec.ReserializeMarker | src/JsonExpressionSerializer.php:35-50 | serializing what a column decodes to rebuilds the column exactly when it is a marker carrying the serializer's own type |
| SerializerSetup.Resolve | tests/DynamicAttributeBehaviorTest.php:13-30 | no configuration resolves to the JSON serializer; a ready object resolves to itself; a serialize/unserialize pair resolves to a callback serializer over that pair |
| SerializerSetup.GetSerializer | tests/DynamicAttributeBehaviorTest.php:13-30 | a pending configuration is resolved to the serializer it stands for, an already resolved slot returns its object, and the slot ends up holding the returned object |
| SerializerSetup.SetSerializer | tests/DynamicAttributeBehaviorTest.php:20-28 | setting a configuration leaves it pending, and the next get hands out what that configuration resolves to |
| SerializerSetup.DefaultIsJson | tests/DynamicAttributeBehaviorTest.php:15-18 | a behaviour never given a serializer hands out the JSON serializer |
| SerializerSetup.GetSerializerIdempotent | tests/DynamicAttributeBehaviorTest.php:17-22 | asking again returns the same serializer and leaves the slot as it was |
| SerializerSetup.SetThenGet | tests/DynamicAttributeBehaviorTest.php:20-29 | after setting a ready object, exactly that object is handed out; after setting a callback pair, a callback serializer over that pair is |
| SerializerSetup.JsonExpressionKeepsType | src/JsonExpressionSerializer.php:24-38 | a configured JSON-expression serializer is handed out as it is, and its markers carry the type it was configured with |
| JsonCodec.Decode | tests/DynamicAttributeBehaviorTest.php:100-105 | the decoded array's keys are exactly the names the payload lists |
| JsonCodec.DecodeDistinct | tests/DynamicAttributeBehaviorTest.php:100-105 | in a payload listing no name twice, each name decodes to the value listed with it |
| JsonCodec.Encode | tests/DynamicAttributeBehaviorTest.php:173-181 | the payload lists the array's names in strictly ascending order and decodes back to the array |
| JsonCodec.SortedUnique | tests/DynamicAttributeBehaviorTest.php:173-181 | two key-sorted payloads that decode to the same array are identical |
| JsonCodec.DecodeEncode | tests/DynamicAttributeBehaviorTest.php:98-105 | decoding the encoding of any array gives the array back |
| JsonCodec.EncodeDecode | tests/DynamicAttributeBehaviorTest.php:173-181 | a key-sorted payload, decoded and encoded again, is written out identically |
| JsonCodec.EncodeInjective | tests/DynamicAttributeBehaviorTest.php:173-181 | two arrays give the same payload if and only if they are equal |
| DynamicAttributes.Materialize | tests/DynamicAttributeBehaviorTest.php:57-84 | on first access the array holds every declared or stored name, stored values winning over defaults; once loaded it is not reloaded; nothing else changes |
| DynamicAttributes.Attach | tests/data/Item.php:21-32 | a new record's store has nothing loaded, holds the given defaults and column, refuses undeclared names, saves default values and has no filter |
| DynamicAttributes.Reload | tests/DynamicAttributeBehaviorTest.php:100 | reading a record back with the saving record's own options keeps its column and options and leaves nothing loaded |
| DynamicAttributes.GetAll | tests/DynamicAttributeBehaviorTest.php:44-51 | the whole array is the loaded array, loading it first if need be |
| DynamicAttributes.SetAll | tests/DynamicAttributeBehaviorTest.php:46-51 | replacing the array marks it loaded, makes the array exactly the given one and changes nothing else |
| DynamicAttributes.Get | tests/DynamicAttributeBehaviorTest.php:57-84 | a read loads the array whatever its outcome; it succeeds if and only if the name is in the loaded array, and yields its value; otherwise it is an unknown-property error for that name |
| DynamicAttributes.Set | tests/DynamicAttributeBehaviorTest.php:148-160 | a write loads the array whatever its outcome; it succeeds if and only if the name is known or undeclared names are allowed; the name then holds the value and every other name keeps its value; otherwise it is an unknown-property error and the loaded array is unchanged |
| DynamicAttributes.OmitDefaults | tests/DynamicAttributeBehaviorTest.php:165-182 | an entry is kept if and only if its name has no default or its value differs from the default; kept entries keep their values |
| DynamicAttributes.ApplyFilter | tests/DynamicAttributeBehaviorTest.php:189-211 | no filter keeps the array; filter `true` keeps exactly the entries with a declared name, values unchanged; a callable's result replaces the array |
| DynamicAttributes.SavePayload | tests/DynamicAttributeBehaviorTest.php:165-211 | without a callable, a name is saved if and only if it is in the array, passes filter `true` and, when defaults are not saved, differs from its default; a callable receives the array after that drop and its result is the payload |
| DynamicAttributes.BeforeSave | tests/DynamicAttributeBehaviorTest.php:134-182 | an untouched record keeps its column; otherwise the column receives a name-sorted payload decoding to the save payload, and nothing else changes |
| DynamicAttributes.GetAllIdempotent | tests/DynamicAttributeBehaviorTest.php:44-51 | reading the whole array twice gives the same array and leaves the store as it was |
| DynamicAttributes.FreshReadsDefaults | tests/DynamicAttributeBehaviorTest.php:57-63 | a fresh record reads a declared name's default when its column holds no value for it |
| DynamicAttributes.SetThenGetAll | tests/DynamicAttributeBehaviorTest.php:37-44 | an admitted write shows up in the whole array, with the other entries unchanged |
| DynamicAttributes.SetAllThenGetAll | tests/DynamicAttributeBehaviorTest.php:46-51 | a replaced array reads back exactly, whatever names it holds and whatever the admission setting |
| DynamicAttributes.Admission | tests/DynamicAttributeBehaviorTest.php:148-160 | a name the loaded array does not hold (on a new record: neither declared nor stored), whether or not the record was loaded before, can be written if and only if undeclared names are allowed; it then reads back, and otherwise the write is an unknown-property error |
| DynamicAttributes.CoveredPreserved | tests/DynamicAttributeBehaviorTest.php:68-84 | loading, writing and saving keep every declared name in the array, so a declared name can always be written |
| DynamicAttributes.SavedEntries | tests/DynamicAttributeBehaviorTest.php:165-200 | without a callable filter, a name is saved if and only if it is in the array, passes filter `true` (declared names only) and, when defaults are not saved, differs from its default; saved values are the array's |
| DynamicAttributes.SavedText | tests/DynamicAttributeBehaviorTest.php:173-181 | any name-sorted listing of the save payload is exactly what the column receives |
| DynamicAttributes.SavedProjection | tests/DynamicAttributeBehaviorTest.php:202-210 | with a callable filter the column holds exactly the callable's result, name-sorted |
| DynamicAttributes.SaveReload | tests/DynamicAttributeBehaviorTest.php:90-129 | without a save filter, a record whose array covers its declared names reads back exactly that array after save and a reload with the same options, whether or not defaults are saved |
| DynamicAttributes.SaveReloadDeclaredOnly | tests/DynamicAttributeBehaviorTest.php:196-200 | under filter `true`, a record whose array covers its declared names, after a reload with the same options, knows exactly the declared names, each with its saved value |
| DynamicAttributes.ResaveStable | tests/DynamicAttributeBehaviorTest.php:111-129 | without a save filter, loading a saved record (whose array covered its declared names) with the same options and saving it again unchanged writes the identical column |
| ItemScenarios.FindItemIsReload | tests/data/Item.php:21-32 | `findOne` reads a record back as a reload with the record's own options if and only if those options are `Item`'s configured ones |
| ItemScenarios.FindItemUsesConfiguredDefaults | tests/DynamicAttributeBehaviorTest.php:72-74 | a null default set at run time is lost by `findOne`: the record found again reads `Item`'s default 0, while a same-options reload reads null |
| ItemScenarios.WritesSurviveFind | tests/DynamicAttributeBehaviorTest.php:90-129 | on an `Item` with its configured options, values written to two declared names are read back by the record `findOne` returns after the save |
| ItemScenarios.GetAttributeDefaultValue | tests/DynamicAttributeBehaviorTest.php:57-63 | a new Item reads hasComment as false and commentCount as the integer 0 |
| ItemScenarios.SetupDynamicAttributes | tests/DynamicAttributeBehaviorTest.php:32-52 | after writing hasComment and commentCount the array is exactly those values; a replaced array reads back as given |
| ItemScenarios.NullDefaultValue | tests/DynamicAttributeBehaviorTest.php:68-84 | with a null default, commentCount reads null, and 15 can be written and reads back |
| ItemScenarios.InsertDynamicAttributes | tests/DynamicAttributeBehaviorTest.php:90-106 | after insert the column is not empty and the record found again reads the written values |
| ItemScenarios.UpdateDynamicAttributes | tests/DynamicAttributeBehaviorTest.php:111-129 | a found record, changed and saved again, is found with the new values |
| ItemScenarios.SkipIfNotInitialized | tests/DynamicAttributeBehaviorTest.php:134-143 | an Item saved without touching its dynamic attributes keeps an empty column |
| ItemScenarios.SetRandomDynamicAttribute | tests/DynamicAttributeBehaviorTest.php:148-160 | an undeclared name is written and read back while allowed; once disallowed, another undeclared name is an unknown-property error |
| ItemScenarios.SaveDynamicAttributeDefaultsOff | tests/DynamicAttributeBehaviorTest.php:167-173 | with default values not saved the column is exactly `{"commentCount":10}` |
| ItemScenarios.SaveDynamicAttributeDefaultsOn | tests/DynamicAttributeBehaviorTest.php:175-181 | with default values saved the column is exactly `{"commentCount":10,"hasComment":false}`, names in sorted order |
| ItemScenarios.SaveFilterDeclaredOnly | tests/DynamicAttributeBehaviorTest.php:191-200 | filter `true` drops the undeclared `some`: the column is exactly `{"commentCount":12}` |
| ItemScenarios.SaveFilterCallable | tests/DynamicAttributeBehaviorTest.php:202-210 | the callable that renames `some` to `save` yields exactly `{"save":"foo"}` |

## Left out

- `PhpSerializer`, `JsonSerializer` and `CallbackSerializer` are not modelled beyond their resolution. The store always encodes through the JSON serializer, with JSON text modelled as a sequence of members. Byte-level encoding, number formatting and escaping are not modelled.
- Decode errors are not modelled: the abstract payload cannot be malformed. The JSON serializer's mapping of non-object JSON to an empty array is not modelled either.
- PHP's key sort compares numeric-looking string keys as numbers: `"2.0"` sorts before `"10.0"`, and integer-like keys become integers. The model compares every name as a string by character code, so it orders such names differently.
- PHP floats (fractional JSON numbers) and nested JSON objects are not modelled: `Value` has null, booleans, integers, strings and lists only.
- ActiveRecord plumbing is not modelled: validation, `save`, `findOne` and the database round trip. The storage column is a slot. `FindItem` (a new `Item` over the saved column) and `Reload` (the same record over its column) stand for reading a record back.
- PHP's magic property interception (`__get`, `__set`, `__isset`, `__unset`) is not modelled. Property access is explicit. `isset` and `unset` on dynamic attributes are not modelled: no test exercises them.
- DynamicAttributes.OmitDefaults: compares values with exact equality rather than PHP's loose `==`, so `0`, `false` and `null` defaults are not confused.
- DynamicAttributes.Attach: starting with default values saved (`saveDynamicAttributeDefaults` true) is assumed. Every test whose outcome depends on it sets the flag explicitly.
- DynamicAttributes.ApplyFilter: the tests show filter `true` only dropping an undeclared name. Keeping exactly the declared names is the reading consistent with that assertion.
- DynamicAttributes.SavePayload: dropping default-valued entries before a callable save filter runs, rather than after, is a choice the tests do not fix. The orders differ in general: with defaults not saved, a callable returning `["commentCount" => 0]` writes `{"commentCount":0}` here and `{}` in the other order.
- DynamicAttributes.Reload: keeps the saving record's runtime options, as reading back through the same behaviour instance would. `findOne` builds a new record with `Item`'s configured options instead, so `SaveReload`, `SaveReloadDeclaredOnly` and `ResaveStable` speak of `findOne` only when those options were not changed (`ItemScenarios.FindItemIsReload`).
- PHP integers are 64-bit; the model's `Int` is unbounded. No arithmetic is done on attribute values, so the store's behaviour does not depend on the width.
