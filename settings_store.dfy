/**
 * The settings object of one settings file.  It keeps the in-memory tree
 * that reads and writes go to, and the tree the file on disk holds, which
 * catches up with the in-memory tree on every save.  A section object is a
 * view onto the shared tree: here it is the path of section names from the
 * root, and a write through it changes the root's tree.
 */
module SettingsStore {
  import opened Wrappers
  import opened SettingsTree
  import opened SectionOps

  class Settings {
    /** The in-memory tree. */
    var config: Entries
    /** The tree as last written to the settings file. */
    var persisted: Entries

    /** Opens a settings file whose parsed contents are `saved`. */
    constructor Load(saved: Entries)
      ensures config == saved && persisted == saved
    {
      config := saved;
      persisted := saved;
    }

    /** `section.set(key, value, override, autosave)`, also item assignment. */
    method Set(path: seq<string>, key: string, value: Node, override: bool := true, autosave: bool := true)
      returns (r: Outcome<SectionError>)
      requires SectionAt(config, path).Some?
      modifies this
      ensures SectionAt(config, path).Some?
      ensures match Assign(SectionAt(old(config), path).value, key, value, override)
        case Failure(e) => r == Fail(e) && config == old(config) && persisted == old(persisted)
        case Success(s) =>
          && r == Pass
          && config == ReplaceAt(old(config), path, s)
          && persisted == (if autosave then config else old(persisted))
    {
      var section := SectionAt(config, path).value;
      match Assign(section, key, value, override)
      case Failure(e) =>
        r := Fail(e);
      case Success(s) =>
        ReplaceAtFocus(config, path, s);
        config := ReplaceAt(config, path, s);
        if autosave {
          persisted := config;
        }
        r := Pass;
    }

    /** `section.set_values(vals, override, autosave)`; no mapping changes nothing. */
    method SetValues(path: seq<string>, vals: Option<map<string, Scalar>>, override: bool := true, autosave: bool := true)
      returns (r: Outcome<SectionError>)
      requires SectionAt(config, path).Some?
      modifies this
      ensures SectionAt(config, path).Some?
      ensures vals.None? ==> r == Pass && config == old(config) && persisted == old(persisted)
      ensures vals.Some? ==>
        match AssignValues(SectionAt(old(config), path).value, vals.value, override)
        case Failure(e) => r == Fail(e) && config == old(config) && persisted == old(persisted)
        case Success(s) =>
          && r == Pass
          && config == ReplaceAt(old(config), path, s)
          && persisted == (if autosave then config else old(persisted))
    {
      if vals.None? {
        return Pass;
      }
      var section := SectionAt(config, path).value;
      var applied := ApplyValues(section, vals.value, override);
      match applied
      case Failure(e) =>
        r := Fail(e);
      case Success(s) =>
        ReplaceAtFocus(config, path, s);
        config := ReplaceAt(config, path, s);
        if autosave {
          persisted := config;
        }
        r := Pass;
    }

    /** `section.set_defaults(**vals)`: fills the missing keys and saves. */
    method SetDefaults(path: seq<string>, vals: map<string, Scalar>) returns (r: Outcome<SectionError>)
      requires SectionAt(config, path).Some?
      modifies this
      ensures SectionAt(config, path).Some?
      ensures match AssignValues(SectionAt(old(config), path).value, vals, false)
        case Failure(e) => r == Fail(e) && config == old(config) && persisted == old(persisted)
        case Success(s) => r == Pass && config == ReplaceAt(old(config), path, s) && persisted == config
    {
      r := SetValues(path, Some(vals), false, true);
    }

    /**
     * `section.add_section(name, **defaults)`: returns the child section (as
     * its path), creating it when absent and filling in `defaults`; saves.
     */
    method AddSection(path: seq<string>, name: string, defaults: map<string, Scalar> := map[])
      returns (r: Result<seq<string>, SectionError>)
      requires SectionAt(config, path).Some?
      modifies this
      ensures SectionAt(config, path).Some?
      ensures match SectionOps.AddSection(SectionAt(old(config), path).value, name, defaults)
        case Failure(e) => r == Failure(e) && config == old(config) && persisted == old(persisted)
        case Success(s) =>
          && r == Success(path + [name])
          && config == ReplaceAt(old(config), path, s)
          && persisted == config
          && SectionAt(config, path + [name]) == Some(s[name].entries)
    {
      var section := SectionAt(config, path).value;
      match SectionOps.AddSection(section, name, defaults)
      case Failure(e) =>
        r := Failure(e);
      case Success(s) =>
        ReplaceAtFocus(config, path, s);
        config := ReplaceAt(config, path, s);
        SectionAtChild(config, path, name);
        persisted := config;
        r := Success(path + [name]);
    }

    /** `save()`: writes the whole in-memory tree to the file. */
    method Save()
      modifies this
      ensures config == old(config) && persisted == config
    {
      persisted := config;
    }
  }

  /**
   * After a successful `set` of a scalar at section `p`, reading `key` back
   * gives the new value (or the old one when it was kept for lack of
   * `override`), and every other key of that section reads as before.
   */
  lemma SetReadsBack(t: Entries, p: seq<string>, key: string, v: Scalar, override: bool)
    requires SectionAt(t, p).Some?
    requires Assign(SectionAt(t, p).value, key, Leaf(v), override).Success?
    ensures var t' := ReplaceAt(t, p, Assign(SectionAt(t, p).value, key, Leaf(v), override).value);
      && Lookup(t', p, key) == (if override || Lookup(t, p, key).None? then Some(Leaf(v)) else Lookup(t, p, key))
      && forall k :: k != key ==> Lookup(t', p, k) == Lookup(t, p, k)
  {
    ReplaceAtFocus(t, p, Assign(SectionAt(t, p).value, key, Leaf(v), override).value);
  }

  /**
   * `set(key, value, override=False)` on a key that already holds a value,
   * at any depth, leaves the whole tree as it was.
   */
  lemma SetWithoutOverrideKeepsTree(t: Entries, p: seq<string>, key: string, v: Scalar)
    requires Lookup(t, p, key).Some? && Lookup(t, p, key).value.Leaf?
    ensures Assign(SectionAt(t, p).value, key, Leaf(v), false).Success?
    ensures ReplaceAt(t, p, Assign(SectionAt(t, p).value, key, Leaf(v), false).value) == t
  {
    ReplaceAtSame(t, p);
  }
}
