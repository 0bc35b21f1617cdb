/**
 * The behaviour the settings test suite checks, replayed against the model:
 * each method builds the same situation and asserts what the test asserts.
 */
module Scenarios {
  import opened Wrappers
  import opened SettingsTree
  import opened SectionOps
  import opened SettingsStore
  import opened Migrator
  import opened ExcludesModel

  function FooBar(): Entries
  {
    map["foo" := Leaf(Str("bar")), "hello" := Leaf(Str("world"))]
  }

  method SetItemScenario()
  {
    var s := new Settings.Load(FooBar());
    assert Lookup(s.config, [], "foo") == Some(Leaf(Str("bar")));
    var r := s.Set([], "foo", Leaf(Str("new value")));
    assert r == Pass;
    assert s.config == map["foo" := Leaf(Str("new value")), "hello" := Leaf(Str("world"))];
    assert s.persisted == s.config;
    r := s.Set([], "zip", Leaf(Int(2)));
    assert s.persisted == map["foo" := Leaf(Str("new value")), "hello" := Leaf(Str("world")), "zip" := Leaf(Int(2))];
  }

  method SetWithoutAutosaveScenario()
  {
    var s := new Settings.Load(FooBar());
    var r := s.Set([], "foo", Leaf(Str("new value")), autosave := false);
    assert s.persisted == FooBar();
    assert s.config == map["foo" := Leaf(Str("new value")), "hello" := Leaf(Str("world"))];
    s.Save();
    assert s.persisted == map["foo" := Leaf(Str("new value")), "hello" := Leaf(Str("world"))];
  }

  method SetWithoutOverrideScenario()
  {
    var s := new Settings.Load(FooBar());
    var r := s.Set([], "foo", Leaf(Str("new value")), override := false);
    assert s.config == FooBar() && s.persisted == FooBar();
    var e := new Settings.Load(map[]);
    r := e.Set([], "foo", Leaf(Str("new value")), override := false);
    assert e.persisted == map["foo" := Leaf(Str("new value"))];
  }

  method SetValuesWithoutAutosaveScenario()
  {
    var vals := map["foo" := Str("new value"), "int" := Int(1)];
    assert Leaves(vals) == map["foo" := Leaf(Str("new value")), "int" := Leaf(Int(1))];
    assert !ValuesClash(FooBar(), vals);
    var expected := map["foo" := Leaf(Str("new value")), "hello" := Leaf(Str("world")), "int" := Leaf(Int(1))];
    assert FooBar() + Leaves(vals) == expected;
    assert AssignValues(FooBar(), vals, true) == Success(expected);
    var s := new Settings.Load(FooBar());
    var r := s.SetValues([], Some(vals), autosave := false);
    assert s.config == expected;
    assert s.persisted == FooBar();
  }

  method SetValuesNoneScenario()
  {
    var s := new Settings.Load(FooBar());
    var r := s.SetValues([], None);
    assert s.config == FooBar() && s.persisted == FooBar();
  }

  method SetValuesWithoutOverrideScenario()
  {
    var vals := map["foo" := Str("not set"), "new item" := Str("is set")];
    assert Leaves(vals) == map["foo" := Leaf(Str("not set")), "new item" := Leaf(Str("is set"))];
    assert !ValuesClash(FooBar(), vals);
    var t := new Settings.Load(FooBar());
    var r := t.SetValues([], Some(vals), override := false);
    assert t.persisted == FooBar()["new item" := Leaf(Str("is set"))];
  }

  method SetDefaultsScenario()
  {
    var vals := map["foo" := Str("value"), "zip" := Int(3)];
    assert Leaves(vals) == map["foo" := Leaf(Str("value")), "zip" := Leaf(Int(3))];
    assert !ValuesClash(FooBar(), vals);
    var s := new Settings.Load(FooBar());
    var r := s.SetDefaults([], vals);
    assert s.persisted == FooBar()["zip" := Leaf(Int(3))];
  }

  method SectionScenario()
  {
    var s := new Settings.Load(map[]);
    var p1 := s.AddSection([], "Plugin 1");
    assert !ValuesClash(map[], map[]);
    assert [] + ["Plugin 1"] == ["Plugin 1"];
    assert p1 == Success(["Plugin 1"]);
    assert SectionAt(s.config, ["Plugin 1"]).value.Keys == {};
    var r := s.Set(["Plugin 1"], "foo", Leaf(Str("bar")));
    assert s.config == map["Plugin 1" := Section(map["foo" := Leaf(Str("bar"))])];
    AddSectionExisting(s.config, "Plugin 1");
    p1 := s.AddSection([], "Plugin 1");
    assert SectionAt(s.config, ["Plugin 1"]) == Some(map["foo" := Leaf(Str("bar"))]);

    // A value over a section and a section over a value are both refused.
    r := s.Set([], "Plugin 1", Leaf(Int(123)));
    assert r == Fail(ValueOverSection);
    r := s.Set([], "plain", Leaf(Int(123)));
    var bad := s.AddSection([], "plain");
    assert bad == Failure(SectionOverValue);
  }

  method NestedSetWithoutOverrideScenario()
  {
    var t := map["Plugin 1" := Section(FooBar())];
    var s := new Settings.Load(t);
    SetWithoutOverrideKeepsTree(t, ["Plugin 1"], "foo", Str("new value"));
    var r := s.Set(["Plugin 1"], "foo", Leaf(Str("new value")), override := false);
    assert s.config == t && s.persisted == t;
  }

  method SectionOverSectionScenario()
  {
    var m1 := map["foo" := Leaf(Str("bar")), "hello" := Leaf(Str("world"))];
    var m2 := map["foo" := Leaf(Str("new value")), "zip" := Leaf(Int(2))];
    var s := new Settings.Load(map["Plugin 1" := Section(m1), "Plugin 2" := Section(m2)]);
    var r := s.Set([], "Plugin 1", Section(m2), override := false);
    assert m2 + m1 == map["foo" := Leaf(Str("bar")), "hello" := Leaf(Str("world")), "zip" := Leaf(Int(2))];
    assert SectionAt(s.persisted, ["Plugin 1"]) == Some(m2 + m1);
    r := s.Set([], "Plugin 1", Section(m2));
    assert SectionAt(s.persisted, ["Plugin 1"]) == Some(m2);
  }

  method SubSectionScenario()
  {
    var s := new Settings.Load(map["Plugin 1" := Section(map[])]);
    var p11 := s.AddSection(["Plugin 1"], "Plugin 1.1");
    assert !ValuesClash(map[], map[]);
    assert p11.Success?;
    ghost var sub := SectionAt(s.config, ["Plugin 1", "Plugin 1.1"]);
    assert sub.Some? && sub.value.Keys == {};
    var r := s.Set(["Plugin 1", "Plugin 1.1"], "foo", Leaf(Str("bar")), autosave := false);
    s.Save();
    assert Lookup(s.persisted, ["Plugin 1", "Plugin 1.1"], "foo") == Some(Leaf(Str("bar")));
  }

  method MergeScenario()
  {
    var user := map["foo" := Leaf(Str("new value")), "hello" := Leaf(Str("world"))];
    assert Merge(FooBar(), Missing, "user.cfg", true) == Success(FooBar());
    MergeKeepsCompleteUserFile(FooBar(), user, "user.cfg");
    assert Merge(FooBar(), Parsed(user), "user.cfg", true) == Success(user);

    var defaults := FooBar()["new" := Leaf(Str("value"))];
    var merged := Merge(defaults, Parsed(user), "user.cfg", true).value;
    assert merged.Keys == {"foo", "hello", "new"};
    assert merged == user["new" := Leaf(Str("value"))];

    var failed := Merge(defaults, Parsed(user), "user.cfg", false);
    assert failed.error.message[..|"Could not open "|] == "Could not open ";
    assert Merge(defaults, Unparsable, "user.cfg", true) == Failure(ConfigurationError);
  }

  method MigrateScenario()
  {
    var user := map["foo" := Leaf(Str("new value")), "hello" := Leaf(Str("world"))];
    MergeKeepsCompleteUserFile(FooBar(), user, "user.cfg");
    var migrated := Migrate(FooBar(), Parsed(user), "user.cfg", true).value;
    assert migrated == user[SettingsVersionKey := Leaf(Int(CurrentSettingsVersion))];
    assert Migrate(FooBar(), Missing, "user.cfg", true) == Success(FooBar());
  }

  method ExcludesScenario()
  {
    var dir := "settings/excludes";
    BasenameOfJoin("", "test_repeat_almost_similar");
    var e := new Excludes(dir, "test_repeat_almost_similar", map[]);
    assert StripTrailingSlashes("/foo/bar") == "/foo/bar";
    assert "/foo/bar/"[..|"/foo/bar/"| - 1] == "/foo/bar";
    assert StripTrailingSlashes("/foo/bar/") == "/foo/bar";
    assert AddExcludes([], ["/foo/bar"]) == AddExcludes(["/foo/bar"], []) == ["/foo/bar"];
    assert AddExcludes(["/foo/bar"], ["/foo/bar/"]) == ["/foo/bar"];
    e.UpdateExcludes(["/foo/bar"]);
    assert e.Current() == ["/foo/bar"];
    e.UpdateExcludes(["/foo/bar/"]);
    assert e.Current() == ["/foo/bar"];
  }

  method ExcludedDirectoryScenario()
  {
    var dir := "settings/excludes";
    var f := new Excludes(dir, "test_file_in_excluded_dir", map[]);
    assert StripTrailingSlashes("/foo") == "/foo";
    f.UpdateExcludes(["/foo"]);
    assert f.Current() == ["/foo"];
    var hit := f.CheckPath("/foo/bar/baz");
    assert "/foo/" <= "/foo/bar/baz";
    assert hit;
    hit := f.CheckPath("/foo/bar/");
    assert "/foo/" <= "/foo/bar/";
    assert hit;
    hit := f.CheckPath("/foo/");
    assert hit;
  }

  method CheckPathScenario()
  {
    var dir := "settings/excludes";
    var f := new Excludes(dir, "test_check_path", map[]);
    assert StripTrailingSlashes("/foo/bar/baz") == "/foo/bar/baz";
    assert AddExcludes([], ["/foo/bar/baz"]) == AddExcludes(["/foo/bar/baz"], []) == ["/foo/bar/baz"];
    f.UpdateExcludes(["/foo/bar/baz"]);
    assert f.Current() == ["/foo/bar/baz"];
    var hit := f.CheckPath("/foo/bar/baz");
    assert hit;
  }

  method DirectoryChangedScenario()
  {
    var dir := "settings/excludes";
    BasenameOfJoin("", "test_dir_changed");
    assert Join("", "test_dir_changed") == "test_dir_changed";
    BasenameOfJoin(dir, "test_dir_changed_to_another_one");
    var first := Join(dir, "test_dir_changed");
    var second := Join(dir, "test_dir_changed_to_another_one");
    var e := new Excludes(dir, "test_dir_changed", map[]);
    assert e.excludeFilePath == first;
    e.SettingChanged(DefaultDirectoryKey, first, second);
    assert e.projectName == "test_dir_changed_to_another_one";
    assert e.excludeFilePath == second;
  }
}
