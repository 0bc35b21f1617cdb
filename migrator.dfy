/**
 * The settings migrator: on start-up it reconciles the shipped default
 * settings with the user's own settings file.  User values win, settings
 * that only the defaults have are added, sections present on both sides are
 * merged key by key, and the result is stamped with the current settings
 * version.
 */
module Migrator {
  import opened Wrappers
  import opened SettingsTree

  /** The key under which the settings version is stored. */
  const SettingsVersionKey: string := "settings_version"
  /** The settings version this program writes. */
  const CurrentSettingsVersion: int := 1

  /** The state of the user's settings file when the migrator opens it. */
  datatype UserFile = Missing | Unparsable | Parsed(entries: Entries)

  /** A failed merge: the user file does not parse, or the target cannot be opened for writing (with its message). */
  datatype MigrationError = ConfigurationError | CouldNotOpen(message: string)

  /** The text of the error raised for a target that cannot be written. */
  function CouldNotOpenMessage(path: string): (msg: string)
    ensures |msg| >= |"Could not open "|
    ensures msg[..|"Could not open "|] == "Could not open "
    ensures msg[|"Could not open "|..] == path
  {
    "Could not open " + path
  }

  /** Merges user node `u` over default node `d`: sections on both sides merge key-wise, otherwise `u` wins. */
  function MergeNode(d: Node, u: Node): Node
    decreases d
  {
    if d.Section? && u.Section? then
      Section(map k | k in d.entries.Keys + u.entries.Keys ::
        if k in d.entries && k in u.entries && d.entries[k].Section? && u.entries[k].Section?
        then MergeNode(d.entries[k], u.entries[k])
        else if k in u.entries then u.entries[k]
        else d.entries[k])
    else u
  }

  /** The user's entries `u` merged over the default entries `d`. */
  function MergeEntries(d: Entries, u: Entries): (r: Entries)
    ensures r.Keys == d.Keys + u.Keys
    ensures forall k :: k in u && (k !in d || d[k].Leaf? || u[k].Leaf?) ==> r[k] == u[k]
    ensures forall k :: k in d && k !in u ==> r[k] == d[k]
    ensures forall k :: k in d && k in u && d[k].Section? && u[k].Section? ==>
      r[k] == MergeNode(d[k], u[k])
  {
    MergeNode(Section(d), Section(u)).entries
  }

  /**
   * `SettingsMigrator(default, user).merge()`: a missing user file becomes a
   * copy of the defaults; an unparsable one is a ConfigurationError; a
   * target that cannot be written fails with "Could not open <path>";
   * otherwise the user's settings merged over the defaults.
   */
  function Merge(defaults: Entries, user: UserFile, userPath: string, writable: bool): (r: Result<Entries, MigrationError>)
    ensures user.Unparsable? <==> r == Failure(ConfigurationError)
    ensures !user.Unparsable? && !writable <==> r == Failure(CouldNotOpen(CouldNotOpenMessage(userPath)))
    ensures r.Failure? && r.error.CouldNotOpen? ==>
      && |r.error.message| >= |"Could not open "|
      && r.error.message[..|"Could not open "|] == "Could not open "
      && r.error.message[|"Could not open "|..] == userPath
    ensures user.Missing? && writable ==> r == Success(defaults)
    ensures user.Parsed? && writable ==>
      && r.Success?
      && r.value.Keys == defaults.Keys + user.entries.Keys
      && (forall k :: k in user.entries && (k !in defaults || defaults[k].Leaf? || user.entries[k].Leaf?) ==>
            r.value[k] == user.entries[k])
      && (forall k :: k in defaults && k !in user.entries ==> r.value[k] == defaults[k])
      && (forall k :: k in defaults && k in user.entries && defaults[k].Section? && user.entries[k].Section? ==>
            r.value[k] == MergeNode(defaults[k], user.entries[k]))
  {
    match user
    case Unparsable => Failure(ConfigurationError)
    case Missing => if writable then Success(defaults) else Failure(CouldNotOpen(CouldNotOpenMessage(userPath)))
    case Parsed(u) =>
      if !writable then Failure(CouldNotOpen(CouldNotOpenMessage(userPath)))
      else Success(MergeEntries(defaults, u))
  }

  /** A user file whose settings all appear in the defaults as plain values is kept exactly as it is. */
  lemma MergeKeepsCompleteUserFile(defaults: Entries, u: Entries, userPath: string)
    requires defaults.Keys <= u.Keys
    requires forall k :: k in u ==> u[k].Leaf?
    ensures Merge(defaults, Parsed(u), userPath, true) == Success(u)
  {
    var r := MergeEntries(defaults, u);
    assert r.Keys == u.Keys;
    assert forall k :: k in u ==> r[k] == u[k];
    assert r == u;
  }

  /**
   * The migration run at start-up: `merge()`, after which a user file that
   * already existed is stamped with the current settings version.  A missing
   * user file is a plain copy of the defaults.  Any failure of the merge is
   * passed on unchanged.
   */
  function Migrate(defaults: Entries, user: UserFile, userPath: string, writable: bool): (r: Result<Entries, MigrationError>)
    ensures Merge(defaults, user, userPath, writable).Failure? <==> r.Failure?
    ensures r.Failure? ==> r.error == Merge(defaults, user, userPath, writable).error
    ensures user.Missing? && r.Success? ==> r.value == defaults
    ensures user.Parsed? && r.Success? ==>
      var merged := Merge(defaults, user, userPath, writable).value;
      && r.value.Keys == merged.Keys + {SettingsVersionKey}
      && r.value[SettingsVersionKey] == Leaf(Int(CurrentSettingsVersion))
      && forall k :: k in merged && k != SettingsVersionKey ==> r.value[k] == merged[k]
  {
    match Merge(defaults, user, userPath, writable)
    case Failure(e) => Failure(e)
    case Success(merged) =>
      if user.Missing? then Success(merged)
      else Success(merged[SettingsVersionKey := Leaf(Int(CurrentSettingsVersion))])
  }

  /** Where both trees have a section at `p`, the merged tree holds their merge there. */
  lemma {:induction false} MergeSectionAt(d: Entries, u: Entries, p: seq<string>)
    requires SectionAt(d, p).Some? && SectionAt(u, p).Some?
    ensures SectionAt(MergeEntries(d, u), p) == Some(MergeEntries(SectionAt(d, p).value, SectionAt(u, p).value))
    decreases |p|
  {
    if p != [] {
      MergeSectionAt(d[p[0]].entries, u[p[0]].entries, p[1..]);
    }
  }

  /** Every user leaf value, at any depth, survives the merge unchanged. */
  lemma {:induction false} MergeKeepsUserLeaves(d: Entries, u: Entries, p: seq<string>, k: string, v: Scalar)
    requires Lookup(u, p, k) == Some(Leaf(v))
    ensures Lookup(MergeEntries(d, u), p, k) == Some(Leaf(v))
    decreases |p|
  {
    if p == [] {
    } else {
      var h := p[0];
      if h in d && d[h].Section? {
        MergeKeepsUserLeaves(d[h].entries, u[h].entries, p[1..], k, v);
      } else {
        assert MergeEntries(d, u)[h] == u[h];
      }
    }
  }

  /**
   * A default setting is added wherever the user has the enclosing section
   * but not the setting itself.
   */
  lemma MergeAddsMissingDefaults(d: Entries, u: Entries, p: seq<string>, k: string)
    requires SectionAt(d, p).Some? && SectionAt(u, p).Some?
    requires k in SectionAt(d, p).value && k !in SectionAt(u, p).value
    ensures Lookup(MergeEntries(d, u), p, k) == Lookup(d, p, k)
  {
    MergeSectionAt(d, u, p);
  }

  /** Merging a node with itself gives it back. */
  lemma {:induction false} MergeNodeSelf(x: Node)
    ensures MergeNode(x, x) == x
    decreases x
  {
    if x.Section? {
      forall k | k in x.entries ensures MergeNode(x.entries[k], x.entries[k]) == x.entries[k] {
        MergeNodeSelf(x.entries[k]);
      }
      assert MergeNode(x, x).entries == x.entries;
    }
  }

  /** Merging the defaults into an already merged tree changes nothing. */
  lemma {:induction false} MergeNodeIdempotent(d: Node, u: Node)
    ensures MergeNode(d, MergeNode(d, u)) == MergeNode(d, u)
    decreases d
  {
    if d.Section? && u.Section? {
      var m := MergeNode(d, u);
      forall k | k in d.entries && k in m.entries && d.entries[k].Section? && m.entries[k].Section?
        ensures MergeNode(d.entries[k], m.entries[k]) == m.entries[k]
      {
        if k in u.entries && u.entries[k].Section? {
          MergeNodeIdempotent(d.entries[k], u.entries[k]);
        } else {
          MergeNodeSelf(d.entries[k]);
        }
      }
      assert MergeNode(d, m).entries == m.entries;
    }
  }

  /** Running the migration a second time leaves the user's file as it is. */
  lemma MigrationIsStable(defaults: Entries, u: Entries, userPath: string)
    ensures var once := Migrate(defaults, Parsed(u), userPath, true).value;
      Migrate(defaults, Parsed(once), userPath, true) == Success(once)
  {
    var merged := MergeEntries(defaults, u);
    var once := Migrate(defaults, Parsed(u), userPath, true).value;
    MergeNodeIdempotent(Section(defaults), Section(u));
    var remerged := MergeEntries(defaults, once);
    forall k | k in remerged && k != SettingsVersionKey ensures remerged[k] == once[k] {
      assert MergeEntries(defaults, once)[k] == MergeEntries(defaults, merged)[k];
    }
    var twice := Migrate(defaults, Parsed(once), userPath, true).value;
    assert twice == once;
  }
}
