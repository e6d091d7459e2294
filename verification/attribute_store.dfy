/** The dynamic-attribute store of `DynamicAttributeBehavior`, as its tests pin it down:
    a lazily loaded array of attribute values layered over declared defaults, an
    admission rule for undeclared names, and the save step that filters the array,
    sorts it by name and writes it into the record's storage column. */
module DynamicAttributes {
  import opened Wrappers
  import opened Values
  import opened JsonCodec

  /** `dynamicAttributeSaveFilter`: none, `true` (keep declared names only), or a
      PHP callable that maps the array to the array to save. */
  datatype SaveFilter = NoFilter | DeclaredOnly | Project(f: Attributes -> Attributes)

  /** The exception the record throws for a name it does not know. */
  datatype StoreError = UnknownProperty(name: string)

  /** The behaviour's state on one record.
      - `initialized`: the array has been loaded (or replaced) since the record was created;
      - `attrs`: the loaded array, meaningful once `initialized`;
      - `defaults`: `dynamicAttributeDefaults`, the declared names and their default values;
      - `allowRandom`: `allowRandomDynamicAttribute`;
      - `saveDefaults`: `saveDynamicAttributeDefaults`;
      - `saveFilter`: `dynamicAttributeSaveFilter`;
      - `storage`: the record's storage column; `None` is an empty column. */
  datatype Store = Store(
    initialized: bool,
    attrs: Attributes,
    defaults: Attributes,
    allowRandom: bool,
    saveDefaults: bool,
    saveFilter: SaveFilter,
    storage: Option<Entries>)

  /** The behaviour on a newly created or freshly loaded record: nothing loaded yet,
      the given defaults and column, and the behaviour's default settings (undeclared
      names refused, default values saved, no filter). */
  function Attach(defaults: Attributes, storage: Option<Entries>): (s: Store)
    ensures !s.initialized && s.defaults == defaults && s.storage == storage
    ensures !s.allowRandom && s.saveDefaults && s.saveFilter.NoFilter?
  {
    Store(false, map[], defaults, false, true, NoFilter, storage)
  }

  /** The same record read back from its storage column: nothing loaded yet, the
      column and every option kept, including options changed at run time (a new
      record found by `findOne` takes its class's configured options instead).
      Loading it reads exactly what the column holds over the defaults. */
  function Reload(s: Store): (t: Store)
    ensures !t.initialized && t.storage == s.storage
    ensures t.defaults == s.defaults && t.allowRandom == s.allowRandom
    ensures t.saveDefaults == s.saveDefaults && t.saveFilter == s.saveFilter
  {
    s.(initialized := false, attrs := map[])
  }

  /** What the storage column decodes to; an empty column decodes to an empty array. */
  function Stored(storage: Option<Entries>): Attributes
  {
    match storage
    case None => map[]
    case Some(e) => Decode(e)
  }

  /** Every declared name is present in the loaded array. */
  predicate Covered(s: Store)
  {
    s.initialized ==> s.defaults.Keys <= s.attrs.Keys
  }

  /** Loads the array on first access: stored values win, and defaults fill in the
      names the column does not hold. An initialized store is left as it is. */
  function Materialize(s: Store): (t: Store)
    ensures t.initialized
    ensures s.initialized ==> t == s
    ensures !s.initialized ==>
      forall k :: k in t.attrs <==> k in s.defaults || k in Stored(s.storage)
    ensures !s.initialized ==>
      forall k :: k in t.attrs ==>
        t.attrs[k] == (if k in Stored(s.storage) then Stored(s.storage)[k] else s.defaults[k])
    ensures t == s.(initialized := true, attrs := t.attrs)
  {
    if s.initialized then s
    else s.(initialized := true, attrs := s.defaults + Stored(s.storage))
  }

  /** `getDynamicAttributes`: the loaded array, loading it first if need be. */
  function GetAll(s: Store): (r: (Store, Attributes))
    ensures r.0 == Materialize(s) && r.1 == r.0.attrs
  {
    var t := Materialize(s);
    (t, t.attrs)
  }

  /** `setDynamicAttributes`: replaces the whole array. No admission check applies. */
  function SetAll(s: Store, m: Attributes): (t: Store)
    ensures t.initialized && t.attrs == m
    ensures t == s.(initialized := true, attrs := m)
  {
    s.(initialized := true, attrs := m)
  }

  /** Reading one attribute. The read loads the array first, whatever its outcome.
      Known names read their current value; any other name is an unknown property. */
  function Get(s: Store, name: string): (r: (Store, Result<Value, StoreError>))
    ensures r.0 == Materialize(s)
    ensures r.1.Success? <==> name in Materialize(s).attrs
    ensures r.1.Success? ==> r.1.value == Materialize(s).attrs[name]
    ensures r.1.Failure? ==> r.1.error == UnknownProperty(name)
  {
    var t := Materialize(s);
    if name in t.attrs then (t, Success(t.attrs[name])) else (t, Failure(UnknownProperty(name)))
  }

  /** Writing one attribute. The write loads the array first, whatever its outcome.
      It is admitted when the name is already known or undeclared names are allowed;
      the written name then holds the value and every other name keeps what it held.
      A refused name is an unknown property, and the loaded array is left as it is. */
  function Set(s: Store, name: string, v: Value): (r: (Store, Outcome<StoreError>))
    ensures r.1.Pass? <==> name in Materialize(s).attrs || s.allowRandom
    ensures r.1.Fail? ==> r.1.error == UnknownProperty(name) && r.0 == Materialize(s)
    ensures r.1.Pass? ==> name in r.0.attrs && r.0.attrs[name] == v
    ensures r.1.Pass? ==>
      forall k :: k != name ==> (k in r.0.attrs <==> k in Materialize(s).attrs)
    ensures r.1.Pass? ==>
      forall k :: k != name && k in r.0.attrs ==> r.0.attrs[k] == Materialize(s).attrs[k]
    ensures r.0 == Materialize(s).(attrs := r.0.attrs)
  {
    var t := Materialize(s);
    if name in t.attrs || s.allowRandom then (t.(attrs := t.attrs[name := v]), Pass)
    else (t, Fail(UnknownProperty(name)))
  }

  /** `saveDynamicAttributeDefaults = false`: drops every entry equal to the default
      declared for its name (exact equality). */
  function OmitDefaults(attrs: Attributes, defaults: Attributes): (r: Attributes)
    ensures forall k :: k in r <==> k in attrs && !(k in defaults && defaults[k] == attrs[k])
    ensures forall k :: k in r ==> r[k] == attrs[k]
  {
    map k | k in attrs && !(k in defaults && defaults[k] == attrs[k]) :: attrs[k]
  }

  /** Applies the save filter to the array about to be saved: no filter keeps it,
      `true` keeps exactly the entries with a declared name, and a callable's result
      replaces it. */
  function ApplyFilter(filter: SaveFilter, defaults: Attributes, m: Attributes): (r: Attributes)
    ensures filter.NoFilter? ==> r == m
    ensures filter.DeclaredOnly? ==> forall k :: k in r <==> k in m && k in defaults
    ensures filter.DeclaredOnly? ==> forall k :: k in r ==> r[k] == m[k]
    ensures filter.Project? ==> r == filter.f(m)
  {
    match filter
    case NoFilter => m
    case DeclaredOnly => map k | k in m && k in defaults :: m[k]
    case Project(f) => f(m)
  }

  /** The array the save step writes. Default-valued entries are dropped first unless
      they are to be saved, and the save filter is applied to what is left. Without a
      callable filter, a name is written if and only if it is in the array, passes
      filter `true`, and (when defaults are not saved) differs from its default. A
      callable receives the array after the drop, and its result is what is written. */
  function SavePayload(s: Store): (r: Attributes)
    ensures !s.saveFilter.Project? ==>
      forall k :: k in r <==>
        && k in s.attrs
        && (s.saveFilter.DeclaredOnly? ==> k in s.defaults)
        && (!s.saveDefaults ==> !(k in s.defaults && s.defaults[k] == s.attrs[k]))
    ensures !s.saveFilter.Project? ==> forall k :: k in r ==> r[k] == s.attrs[k]
    ensures s.saveFilter.Project? && s.saveDefaults ==> r == s.saveFilter.f(s.attrs)
    ensures s.saveFilter.Project? && !s.saveDefaults ==>
      r == s.saveFilter.f(OmitDefaults(s.attrs, s.defaults))
  {
    var kept := if s.saveDefaults then s.attrs else OmitDefaults(s.attrs, s.defaults);
    ApplyFilter(s.saveFilter, s.defaults, kept)
  }

  /** The before-insert / before-update hook. A record whose dynamic attributes were
      never read or written keeps its storage column as it is. Otherwise the column
      receives the save payload, sorted by name, and nothing else changes. */
  function BeforeSave(s: Store): (t: Store)
    ensures !s.initialized ==> t == s
    ensures s.initialized ==> t.storage.Some?
    ensures s.initialized ==> StrictlySorted(t.storage.value)
    ensures s.initialized ==> Decode(t.storage.value) == SavePayload(s)
    ensures t == s.(storage := t.storage)
  {
    if !s.initialized then s
    else s.(storage := Some(Encode(SavePayload(s))))
  }

  // ---- Properties relating several operations ----

  /** Loading is done once: reading the array again returns the same array and
      leaves the store as it was. */
  lemma GetAllIdempotent(s: Store)
    ensures GetAll(GetAll(s).0) == GetAll(s)
  {
  }

  /** A fresh record reads each declared default, unless its column holds a value
      for that name. */
  lemma FreshReadsDefaults(defaults: Attributes, storage: Option<Entries>, name: string)
    requires name in defaults && name !in Stored(storage)
    ensures Get(Attach(defaults, storage), name) ==
            (Materialize(Attach(defaults, storage)), Success(defaults[name]))
  {
  }

  /** A written attribute shows up in the whole array, next to the untouched ones. */
  lemma SetThenGetAll(s: Store, name: string, v: Value)
    requires Set(s, name, v).1.Pass?
    ensures GetAll(Set(s, name, v).0).1 == GetAll(s).1[name := v]
  {
  }

  /** Replacing the whole array with any array reads it back unchanged, whatever the
      admission setting. */
  lemma SetAllThenGetAll(s: Store, m: Attributes)
    ensures GetAll(SetAll(s, m)).1 == m
  {
  }

  /** Admission: a name the loaded array does not hold (on a new record, one neither
      declared nor stored) can be written exactly when undeclared names are allowed,
      and then reads back what was written. */
  lemma Admission(s: Store, name: string, v: Value)
    requires name !in Materialize(s).attrs
    ensures Set(s, name, v).1.Pass? <==> s.allowRandom
    ensures s.allowRandom ==> Get(Set(s, name, v).0, name).1 == Success(v)
    ensures !s.allowRandom ==> Set(s, name, v) == (Materialize(s), Fail(UnknownProperty(name)))
  {
  }

  /** Declared names stay known: loading and writing keep every declared name in the
      array, so a declared name can always be written back. */
  lemma CoveredPreserved(s: Store, name: string, v: Value)
    requires Covered(s)
    ensures Covered(Materialize(s))
    ensures Covered(Set(s, name, v).0)
    ensures Covered(BeforeSave(s))
    ensures name in s.defaults ==> Set(s, name, v).1.Pass?
  {
  }

  /** What the column holds after a save without a callable filter: exactly the
      array's entries whose name passes the filter and, when defaults are not saved,
      whose value differs from the name's default. */
  lemma SavedEntries(s: Store, k: string)
    requires s.initialized && !s.saveFilter.Project?
    ensures var saved := Decode(BeforeSave(s).storage.value);
      && (k in saved <==>
           && k in s.attrs
           && (s.saveFilter.DeclaredOnly? ==> k in s.defaults)
           && (!s.saveDefaults ==> !(k in s.defaults && s.defaults[k] == s.attrs[k])))
      && (k in saved ==> saved[k] == s.attrs[k])
  {
  }

  /** The column's exact content: any key-sorted listing of the save payload is
      precisely what the save step writes. */
  lemma SavedText(s: Store, e: Entries)
    requires s.initialized && StrictlySorted(e) && Decode(e) == SavePayload(s)
    ensures BeforeSave(s).storage == Some(e)
  {
    EncodeDecode(e);
  }

  /** With a callable filter the column holds exactly what the callable returned,
      in name order. */
  lemma SavedProjection(s: Store)
    requires s.initialized && s.saveFilter.Project?
    ensures BeforeSave(s).storage ==
      Some(Encode(s.saveFilter.f(if s.saveDefaults then s.attrs else OmitDefaults(s.attrs, s.defaults))))
  {
  }

  /** Save and reload: a record whose array covers its declared names reads back
      exactly the array it saved, whether or not default-valued entries were
      written, because an omitted entry is refilled by its equal default. */
  lemma SaveReload(s: Store)
    requires s.initialized && s.saveFilter.NoFilter? && Covered(s)
    ensures GetAll(Reload(BeforeSave(s))).1 == s.attrs
  {
  }

  /** Save and reload under the `true` filter: the reloaded record knows exactly the
      declared names, each with the value it had when saved. */
  lemma SaveReloadDeclaredOnly(s: Store)
    requires s.initialized && s.saveFilter.DeclaredOnly? && Covered(s)
    ensures GetAll(Reload(BeforeSave(s))).1.Keys == s.defaults.Keys
    ensures forall k :: k in s.defaults ==> GetAll(Reload(BeforeSave(s))).1[k] == s.attrs[k]
  {
  }

  /** Unchanged content is written identically: loading a saved record and saving it
      again without changes writes the very same column. */
  lemma ResaveStable(s: Store)
    requires s.initialized && s.saveFilter.NoFilter? && Covered(s)
    ensures BeforeSave(Materialize(Reload(BeforeSave(s)))).storage == BeforeSave(s).storage
  {
    SaveReload(s);
    assert Materialize(Reload(BeforeSave(s))) == BeforeSave(s);
  }
}
