/** The test record `Item` and the behaviour its tests assert, replayed on the model.
    Each lemma follows one test method step by step. */
module ItemScenarios {
  import opened Wrappers
  import opened Values
  import opened JsonCodec
  import opened DynamicAttributes

  /** `dynamicAttributeDefaults` of `Item`. */
  const ItemDefaults: Attributes := map["hasComment" := Bool(false), "commentCount" := Int(0)]

  /** A new `Item`, its storage column empty. */
  function NewItem(): Store
  {
    Attach(ItemDefaults, None)
  }

  /** `Item::findOne`: a new `Item` whose column holds what was saved. */
  function FindItem(saved: Store): Store
  {
    Attach(ItemDefaults, saved.storage)
  }

  /** `Item::findOne` builds a new `Item` from its configured behaviour options, so it
      reads a record back as `Reload` does exactly when the saved record still had
      those options. */
  lemma FindItemIsReload(saved: Store)
    ensures FindItem(saved) == Reload(saved) <==>
      && saved.defaults == ItemDefaults && !saved.allowRandom
      && saved.saveDefaults && saved.saveFilter.NoFilter?
  {
  }

  /** Writes to two declared names of an `Item` that still has its configured
      options survive a save and `findOne`: the record found again reads both. */
  lemma WritesSurviveFind(item: Store, a: string, va: Value, b: string, vb: Value)
    requires item.defaults == ItemDefaults && !item.allowRandom && item.saveDefaults
    requires item.saveFilter.NoFilter? && Covered(item)
    requires a in ItemDefaults && b in ItemDefaults && a != b
    ensures var changed := Set(Set(item, a, va).0, b, vb).0;
      var found := FindItem(BeforeSave(changed));
      && Get(found, a).1 == Success(va)
      && Get(found, b).1 == Success(vb)
  {
    var c1 := Set(item, a, va).0;
    CoveredPreserved(item, a, va);
    var changed := Set(c1, b, vb).0;
    CoveredPreserved(c1, b, vb);
    FindItemIsReload(BeforeSave(changed));
    SaveReload(changed);
  }

  /** Options changed at run time do not survive `findOne`: with a null default for
      `commentCount` and defaults not saved, the saved record reloaded with its own
      options reads null, while the record found again reads `Item`'s default 0. */
  lemma FindItemUsesConfiguredDefaults()
    ensures var s := NewItem().(defaults := ItemDefaults["commentCount" := Null], saveDefaults := false);
      var saved := BeforeSave(Materialize(s));
      && GetAll(Reload(saved)).1["commentCount"] == Null
      && Get(FindItem(saved), "commentCount").1 == Success(Int(0))
  {
  }

  /** Declared names: a new item reads `hasComment` as false and `commentCount` as the
      integer 0. */
  lemma GetAttributeDefaultValue()
    ensures Get(NewItem(), "hasComment").1 == Success(Bool(false))
    ensures Get(NewItem(), "commentCount").1 == Success(Int(0))
  {
  }

  /** Writes show up in the whole array, and a replaced array reads back as given. */
  lemma SetupDynamicAttributes()
    ensures Set(NewItem(), "hasComment", Bool(true)).1.Pass?
    ensures Set(Set(NewItem(), "hasComment", Bool(true)).0, "commentCount", Int(10)).1.Pass?
    ensures var s := Set(Set(NewItem(), "hasComment", Bool(true)).0, "commentCount", Int(10)).0;
      && GetAll(s).1 == map["hasComment" := Bool(true), "commentCount" := Int(10)]
      && GetAll(SetAll(s, map["hasComment" := Bool(false), "commentCount" := Int(99)])).1
         == map["hasComment" := Bool(false), "commentCount" := Int(99)]
  {
  }

  /** A default of null still declares the name: it reads null, and 15 can be
      written and read back. */
  lemma NullDefaultValue()
    ensures var s := NewItem().(defaults := map["commentCount" := Null]);
      && Get(s, "commentCount").1 == Success(Null)
      && Set(s, "commentCount", Int(15)).1.Pass?
      && Get(Set(s, "commentCount", Int(15)).0, "commentCount").1 == Success(Int(15))
  {
  }

  /** Insert: the saved column is not empty, and the record found again reads the
      values that were written. */
  lemma InsertDynamicAttributes()
    ensures var s := Set(Set(NewItem(), "hasComment", Bool(true)).0, "commentCount", Int(10)).0;
      var found := FindItem(BeforeSave(s));
      && BeforeSave(s).storage.Some? && BeforeSave(s).storage.value != []
      && Get(found, "hasComment").1 == Success(Bool(true))
      && Get(found, "commentCount").1 == Success(Int(10))
  {
    WritesSurviveFind(NewItem(), "hasComment", Bool(true), "commentCount", Int(10));
  }

  /** Update: a found record, changed and saved again, is found with the new values. */
  lemma UpdateDynamicAttributes()
    ensures var s := Set(Set(NewItem(), "hasComment", Bool(true)).0, "commentCount", Int(10)).0;
      var existing := FindItem(BeforeSave(s));
      var changed := Set(Set(existing, "hasComment", Bool(false)).0, "commentCount", Int(99)).0;
      var refreshed := FindItem(BeforeSave(changed));
      && Get(refreshed, "hasComment").1 == Success(Bool(false))
      && Get(refreshed, "commentCount").1 == Success(Int(99))
  {
    var s := Set(Set(NewItem(), "hasComment", Bool(true)).0, "commentCount", Int(10)).0;
    WritesSurviveFind(FindItem(BeforeSave(s)), "hasComment", Bool(false), "commentCount", Int(99));
  }

  /** An item saved without touching its dynamic attributes keeps an empty column. */
  lemma SkipIfNotInitialized()
    ensures BeforeSave(NewItem()).storage == None
    ensures FindItem(BeforeSave(NewItem())).storage == None
  {
  }

  /** Undeclared names are admitted only while `allowRandomDynamicAttribute` is set. */
  lemma SetRandomDynamicAttribute()
    ensures var s := NewItem().(allowRandom := true);
      && Set(s, "unexistingProperty", Str("some")).1.Pass?
      && var t := Set(s, "unexistingProperty", Str("some")).0;
      && Get(t, "unexistingProperty") == (t, Success(Str("some")))
      && Set(t.(allowRandom := false), "anotherUnexistingProperty", Str("foo")).1
         == Fail(UnknownProperty("anotherUnexistingProperty"))
  {
  }

  /** `saveDynamicAttributeDefaults` off: only `commentCount`, which differs from its
      default, is written: the column is `{"commentCount":10}`. */
  lemma SaveDynamicAttributeDefaultsOff()
    ensures var s := Set(NewItem().(saveDefaults := false), "commentCount", Int(10)).0;
      BeforeSave(s).storage == Some([("commentCount", Int(10))])
  {
    var s := Set(NewItem().(saveDefaults := false), "commentCount", Int(10)).0;
    var e := [("commentCount", Int(10))];
    assert SavePayload(s) == map["commentCount" := Int(10)];
    assert Decode(e) == map["commentCount" := Int(10)];
    SavedText(s, e);
  }

  /** `saveDynamicAttributeDefaults` on: the default-valued `hasComment` is written as
      well, after `commentCount` in name order: `{"commentCount":10,"hasComment":false}`. */
  lemma SaveDynamicAttributeDefaultsOn()
    ensures var s := Set(NewItem().(saveDefaults := true), "commentCount", Int(10)).0;
      BeforeSave(s).storage == Some([("commentCount", Int(10)), ("hasComment", Bool(false))])
  {
    var s := Set(NewItem().(saveDefaults := true), "commentCount", Int(10)).0;
    var m := map["commentCount" := Int(10), "hasComment" := Bool(false)];
    var e := [("commentCount", Int(10)), ("hasComment", Bool(false))];
    assert SavePayload(s) == m;
    assert Decode(e) == m by {
      assert e[1..] == [("hasComment", Bool(false))];
    }
    assert StrictlySorted(e) by {
      assert KeyOrder.Below("commentCount", "hasComment");
    }
    SavedText(s, e);
  }

  /** The item of the save-filter test: undeclared names allowed, defaults not saved,
      `commentCount` set to 12 and the undeclared `some` to "foo". */
  function FilterItem(): Store
  {
    var s0 := NewItem().(allowRandom := true, saveDefaults := false);
    Set(Set(s0, "commentCount", Int(12)).0, "some", Str("foo")).0
  }

  /** Filter `true` drops the undeclared `some`: the column is `{"commentCount":12}`. */
  lemma SaveFilterDeclaredOnly()
    ensures BeforeSave(FilterItem().(saveFilter := DeclaredOnly)).storage == Some([("commentCount", Int(12))])
  {
    var s := FilterItem().(saveFilter := DeclaredOnly);
    var e := [("commentCount", Int(12))];
    assert SavePayload(s) == map["commentCount" := Int(12)];
    assert Decode(e) == map["commentCount" := Int(12)];
    SavedText(s, e);
  }

  /** The callable filter of the test: copies `some` to `save`, then drops
      `commentCount` and `some`. */
  function RenameSome(m: Attributes): Attributes
  {
    (if "some" in m then m["save" := m["some"]] else m["save" := Null]) - {"commentCount", "some"}
  }

  /** Dropping default-valued entries from the save-filter item leaves `commentCount` and `some`. */
  lemma OmitDefaultsOfFilterItem()
    ensures OmitDefaults(map["hasComment" := Bool(false), "commentCount" := Int(12), "some" := Str("foo")], ItemDefaults)
         == map["commentCount" := Int(12), "some" := Str("foo")]
  {
  }

  /** The test's callable turns what is left into `{"save":"foo"}`. */
  lemma RenameSomeOfKept()
    ensures RenameSome(map["commentCount" := Int(12), "some" := Str("foo")]) == map["save" := Str("foo")]
  {
  }

  /** After that save, `some` is written again and the callable filter installed: the
      column is exactly the callable's result, `{"save":"foo"}`. */
  lemma SaveFilterCallable()
    ensures var saved := BeforeSave(FilterItem().(saveFilter := DeclaredOnly));
      && Set(saved, "some", Str("foo")).1.Pass?
      && BeforeSave(Set(saved, "some", Str("foo")).0.(saveFilter := Project(RenameSome))).storage
         == Some([("save", Str("foo"))])
  {
    var all := map["hasComment" := Bool(false), "commentCount" := Int(12), "some" := Str("foo")];
    var saved := BeforeSave(FilterItem().(saveFilter := DeclaredOnly));
    FilterItemAttrs();
    assert Set(saved, "some", Str("foo")).1.Pass?;
    var s := Set(saved, "some", Str("foo")).0.(saveFilter := Project(RenameSome));
    assert s.initialized && s.attrs == all && !s.saveDefaults && s.defaults == ItemDefaults;
    CallablePayload(s);
  }

  /** The loaded array and settings of the save-filter item. */
  lemma FilterItemAttrs()
    ensures FilterItem().attrs == map["hasComment" := Bool(false), "commentCount" := Int(12), "some" := Str("foo")]
    ensures FilterItem().initialized && FilterItem().allowRandom && !FilterItem().saveDefaults
    ensures FilterItem().defaults == ItemDefaults
  {
  }

  /** Any loaded `Item` holding those values, with defaults not saved and the test's callable installed, writes `{"save":"foo"}`. */
  lemma CallablePayload(s: Store)
    requires s.initialized && !s.saveDefaults && s.defaults == ItemDefaults
    requires s.attrs == map["hasComment" := Bool(false), "commentCount" := Int(12), "some" := Str("foo")]
    requires s.saveFilter == Project(RenameSome)
    ensures BeforeSave(s).storage == Some([("save", Str("foo"))])
  {
    OmitDefaultsOfFilterItem();
    RenameSomeOfKept();
    var e := [("save", Str("foo"))];
    assert SavePayload(s) == map["save" := Str("foo")];
    assert Decode(e) == map["save" := Str("foo")];
    SavedText(s, e);
  }
}
