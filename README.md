# Settings store of the RIDE test-data editor, modelled in Dafny

RIDE keeps its preferences in a settings file. The file is read into a tree of
sections. Each section maps a key either to a plain value or to a nested
section of the same shape. This project models the behaviour that the
settings test suite pins down for three components:

- **Settings** (`settings_tree.dfy`, `section_ops.dfy`, `settings_store.dfy`).
  The class `SettingsStore.Settings` keeps two trees: `config`, the in-memory
  tree that reads and writes use, and `persisted`, the tree the file on disk
  holds. A write with autosave updates both. A write with `autosave := false`
  updates only `config`, and `Save` brings `persisted` up to date. A section
  object is a view onto the shared tree. Here it is the path of section names
  from the root (what `AddSection` returns), and a write through it changes
  the root's tree. The writes themselves are pure functions on a section's
  entries (`SectionOps`):
  - `Assign` models item assignment and `set`;
  - `AssignValues` and the loop `ApplyValues` model `set_values`;
  - `AddSection` models `add_section`.
  They carry the "only this key changes", "fill gaps only" and SectionError
  rules.
- **SettingsMigrator.merge** (`migrator.dfy`). A pure function. A missing user
  file yields the defaults. Otherwise the user's tree is merged over the
  defaults: user values win, default-only keys are added, and sections present
  on both sides merge key by key. `Migrate`, the start-up migration, runs the
  merge and then stamps the settings version key when a user file existed.
- **Excludes** (`excludes.dfy`). A class holding the project name, the path of
  the project's exclude file, and the exclude files themselves (`files`, one
  list of lines per path). `UpdateExcludes` appends normalised, not yet
  stored paths. `CheckPath` tells whether a path is excluded.
  `SettingChanged` switches to another project.

`scenarios.dfy` replays the test suite's situations against the model and
asserts what each test asserts. Among them: setting with and without
autosave or override, `set_values(None)`, sections over sections, nested
sections, the merge cases, the repeated excludes, and the directory switch.

Design choices where the tests are silent:

- A scalar written over a section is a SectionError even with
  `override := false`. A section value written over a scalar key is a
  SectionError too.
- A failing `set_values` or `add_section` changes nothing.
- A successful call with autosave writes the whole in-memory tree, even when
  the call itself changed nothing.
- A path is excluded when it equals a stored entry or starts with the entry
  followed by `/`, so `/foo` does not exclude `/foobar`.
- Normalisation strips every trailing `/`.
- The constructor of `Excludes` takes the basename of the project setting, as
  `SettingChanged` does.
- The values of `SettingsVersionKey` and `CurrentSettingsVersion` are not in
  the files modelled. The constants here stand in for them; every property
  is stated in terms of the constants.
- A merge target that cannot be written fails whether or not the user file
  exists. An unparsable user file is reported first.
- `merge()` itself does not write the version key: the merge tests expect the
  user file's keys and the defaults' keys and nothing else. The version key
  appears only after the start-up migration, so `Migrate` stamps it, and only
  when a user file existed: a missing user file is a plain copy of the
  defaults.

## Model

| member | source | states |
|---|---|---|
| SettingsTree.ReplaceAtFocus | utest/settings/test_settings.py:258-263 | a write into a nested section reads back through the same path |
| SettingsTree.ReplaceAtElsewhere | utest/settings/test_settings.py:253-271 | a write into one section leaves every section that is neither above nor below it unchanged |
| SettingsTree.ReplaceAtAncestor | utest/settings/test_settings.py:258-271 | a write into a nested section changes its ancestors only along the path to it; all their other keys keep their values |
| SettingsTree.ReplaceAtSame | utest/settings/test_settings.py:128-131 | writing a section's own entries back into it leaves the tree as it was |
| SettingsTree.SectionAtChild | utest/settings/test_settings.py:253-256 | the section at `p + [k]` is the child section `k` of the section at `p` |
| SectionOps.Assign | utest/settings/test_settings.py:91-251 | set (tests 91-131) and a section assigned onto a section or a scalar assigned onto a section (tests 230-251): a scalar over a section, or a section over a scalar, fails; otherwise only `key` changes; the new value is written when the key is new or override holds, else the old one stays; a section value with override leaves the target holding exactly the source's keys, without override only missing keys are copied |
| SectionOps.AssignValues | utest/settings/test_settings.py:133-166 | set_values: fails exactly when a key names a section; keys become the union; given values win under override or where the key was absent; every other existing key keeps its value |
| SectionOps.ApplyValues | utest/settings/test_settings.py:133-152 | the per-key loop of set_values computes exactly AssignValues, including its failure |
| SectionOps.AddSection | utest/settings/test_settings.py:210-236 | add_section fails when the name holds a scalar; otherwise only that key changes, it becomes a section, its existing entries stay and only missing defaults are added |
| SectionOps.NewSectionHoldsDefaults | utest/settings/test_settings.py:217-221 | a newly created section holds exactly its keyword defaults |
| SectionOps.AddSectionIdempotent | utest/settings/test_settings.py:223-228 | calling add_section again, with the same or no defaults, returns the tree unchanged |
| SectionOps.AddSectionExisting | utest/settings/test_settings.py:223-228 | add_section on an existing section without defaults leaves its contents intact |
| SectionOps.DefaultFillKeepsExisting | utest/settings/test_settings.py:147-166 | set_values without override never changes an existing key and adds the absent ones |
| SectionOps.AssignNoValues | utest/settings/test_settings.py:133-152 | set_values with an empty mapping leaves the section's entries unchanged, whatever override is |
| SettingsStore.Settings.Load | utest/settings/test_settings.py:100-103 | a settings object opened on a file starts with its in-memory tree equal to the file's |
| SettingsStore.Settings.Set | utest/settings/test_settings.py:91-131 | set / item assignment at a section: on SectionError nothing changes; otherwise the section's entries become Assign's result, the rest of the tree is kept, and the file catches up only with autosave |
| SettingsStore.Settings.SetValues | utest/settings/test_settings.py:133-157 | set_values at a section: no mapping changes nothing; a conflict changes nothing; otherwise the section becomes AssignValues' result and the file catches up only with autosave |
| SettingsStore.Settings.SetDefaults | utest/settings/test_settings.py:159-166 | set_defaults fills the missing keys without override and saves |
| SettingsStore.Settings.AddSection | utest/settings/test_settings.py:210-236 | add_section returns the child's path, the child section holds AddSection's entries, and the file is saved; on SectionError nothing changes |
| SettingsStore.Settings.Save | utest/settings/test_settings.py:115-122 | save makes the file's tree equal to the in-memory tree and changes nothing else |
| SettingsStore.SetReadsBack | utest/settings/test_settings.py:91-113 | after a scalar set, reading the key gives the new value (or the kept old one without override), and every other key of the section reads as before |
| SettingsStore.SetWithoutOverrideKeepsTree | utest/settings/test_settings.py:128-131 | set without override on a key that already holds a value, in a section at any depth, succeeds and leaves the whole tree as it was |
| Migrator.CouldNotOpenMessage | utest/settings/test_settings.py:358-364 | the error text for an unwritable target starts with "Could not open " and ends with the path |
| Migrator.MergeEntries | utest/settings/test_settings.py:343-356 | merged keys are the union; user values win unless both sides hold a section; default-only keys keep their default |
| Migrator.Merge | utest/settings/test_settings.py:341-364 | merge: an unparsable user file is a ConfigurationError; an unwritable target fails with an error whose message is "Could not open " followed by the path; a missing user file yields the defaults; otherwise the keys are the union, user values win unless both sides hold a section, default-only keys keep their default and sections on both sides are merged |
| Migrator.MergeKeepsCompleteUserFile | utest/settings/test_settings.py:343-347 | a user file holding plain values for every default setting comes out of the merge exactly as it was |
| Migrator.Migrate | utest/settings/test_settings.py:299-319 | the start-up migration fails exactly when the merge does, with the same error; a missing user file becomes a plain copy of the defaults; an existing one becomes the merge result plus the version key holding the current version |
| Migrator.MergeSectionAt | utest/settings/test_settings.py:343-356 | where both trees have a section at a path, the merged tree holds the merge of the two sections there |
| Migrator.MergeKeepsUserLeaves | utest/settings/test_settings.py:343-347 | every user value, at any depth, survives the merge unchanged |
| Migrator.MergeAddsMissingDefaults | utest/settings/test_settings.py:349-356 | a default setting is added wherever the user has the enclosing section but not the setting |
| Migrator.MergeNodeIdempotent | utest/settings/test_settings.py:304-311 | merging the defaults into an already merged tree changes nothing |
| Migrator.MigrationIsStable | utest/settings/test_settings.py:304-311 | running the migration again on its own output, version key included, gives the same file |
| ExcludesModel.StripTrailingSlashes | utest/settings/test_settings.py:397-403 | the normalised path is a prefix of the path, does not end in '/', and only '/' characters were removed |
| ExcludesModel.StripIdempotent | utest/settings/test_settings.py:397-403 | normalising twice is normalising once |
| ExcludesModel.CoveredByOwnEntry | utest/settings/test_settings.py:405-411 | a path is covered by its own normalised entry |
| ExcludesModel.AddExcludesShape | utest/settings/test_settings.py:382-403 | update_excludes keeps the stored entries in order, appends only normalised forms of given paths, and never stores an entry twice |
| ExcludesModel.AddExcludesStoresAll | utest/settings/test_settings.py:382-395 | after update_excludes every given path is stored in normalised form |
| ExcludesModel.ExcludedAfterUpdate | utest/settings/test_settings.py:405-421 | after excluding p, p itself and every path under it are excluded |
| ExcludesModel.Basename | utest/settings/test_settings.py:423-432 | a basename never contains a separator |
| ExcludesModel.BasenameIsLastSegment | utest/settings/test_settings.py:423-432 | the basename is the suffix of the path after its last separator |
| ExcludesModel.BasenameOfJoin | utest/settings/test_settings.py:423-432 | the basename of a directory joined with a name is that name |
| ExcludesModel.Excludes.constructor | utest/settings/test_settings.py:377-380 | the project name is the basename of the project setting and the exclude file lies under the settings directory with that name |
| ExcludesModel.Excludes.UpdateExcludes | utest/settings/test_settings.py:382-403 | update_excludes rewrites the active exclude file as AddExcludes of its old lines, touches no other file, and keeps it free of duplicates |
| ExcludesModel.Excludes.CheckPath | utest/settings/test_settings.py:405-421 | check_path is true exactly when some stored entry equals the path or is a directory above it |
| ExcludesModel.Excludes.SettingChanged | utest/settings/test_settings.py:423-432 | a change of the default directory sets the project name to the new directory's basename and the exclude file path to the settings directory joined with it; any other key changes nothing |

## Left out

- Reading and writing the settings file text is left out: parsing, comment and layout preservation, per-type round trips, and ConfigurationError for bad syntax. The file is an abstract `persisted` tree. For the migrator, the user file is `Missing`, `Unparsable` or `Parsed`.
- Floating-point values are left out. Leaf values are null, booleans, integers, strings, lists and mappings.
- A mapping value is kept as a leaf. The file format may turn it into a section on reload, and that is not modelled.
- `get(name, default)` and the change listeners a settings object notifies are not modelled.
- Of `initialize_settings`, only the migration it runs is modelled (`Migrate`). Creating the settings directory and replacing a corrupted user file with the defaults are not.
- A corrupted defaults file is not modelled. The migrator takes the defaults as already-parsed entries.
- SettingsStore.Settings.SetValues: applies the whole mapping or nothing. A partly applied mapping after a SectionError midway is not captured.
- A section object that outlives its parent section's replacement is not modelled. Section views are paths, so a view always reads the live tree.
- Migrator.Merge: the unwritable target is an abstract flag. It is not an operating-system permission check.
- ExcludesModel.Basename: `Basename`, `Join` and `StripTrailingSlashes` treat `/` as the only path separator, as POSIX paths do. The backslash that Windows paths also accept is not modelled.
- ExcludesModel.Excludes.constructor: the project setting is always a string. A missing setting (None) is not modelled, because what the component does with it is not visible in the tests.
- Reading the exclude files from disk is left out. `files` stands for their contents, and the settings directory is a constructor parameter.
